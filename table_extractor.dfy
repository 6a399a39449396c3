/**
 * The top-traders table. Each row of the table is given as the hrefs of its anchors
 * and its `div[class^='custom-']` cells, in document order; a cell carries its text,
 * the texts of its two possible USD spans and the texts of its count spans.
 */
module TableExtractor {
  import opened Wrappers
  import opened JsStrings
  import Search

  const SolscanPattern := "solscan.io/account"
  const BscscanPattern := "bscscan.com/address"
  const UnknownBalance := "Unknown"

  const BoughtCell := 3
  const SoldCell := 4
  const PnlCell := 5
  const UnrealizedCell := 6
  const BalanceCell := 7

  /**
   * A table cell: its text content, the text of its `span.custom-dv3t8y` and of its
   * `span.custom-rcecxm` when it has them, and the texts of its `span.custom-2ygcmq`.
   */
  datatype Cell = Cell(text: string, usdPrimary: Option<string>, usdSecondary: Option<string>, countSpans: seq<string>)

  datatype Row = Row(hrefs: seq<string>, cells: seq<Cell>)

  /** The `{usd, tokens, txns}` triple of a bought or sold cell. */
  datatype Amounts = Amounts(usd: string, tokens: string, txns: string)

  datatype TraderRecord = TraderRecord(
    rank: nat,
    address: string,
    addressUrl: string,
    bought: Amounts,
    sold: Amounts,
    pnl: string,
    unrealized: string,
    balance: string)

  /** `a[href*='solscan.io/account']` */
  predicate IsSolscanLink(href: string) {
    Contains(href, SolscanPattern)
  }

  /** `a[href*='bscscan.com/address']` */
  predicate IsBscscanLink(href: string) {
    Contains(href, BscscanPattern)
  }

  /** The explorer link picks the anchor at `k`: the first Solscan anchor, or, when there is none, the first BscScan one. */
  ghost predicate ChosenLinkAt(hrefs: seq<string>, k: int) {
    && 0 <= k < |hrefs|
    && (|| (IsSolscanLink(hrefs[k]) && forall j :: 0 <= j < k ==> !IsSolscanLink(hrefs[j]))
        || (&& (forall j :: 0 <= j < |hrefs| ==> !IsSolscanLink(hrefs[j]))
            && IsBscscanLink(hrefs[k])
            && forall j :: 0 <= j < k ==> !IsBscscanLink(hrefs[j])))
  }

  /**
   * `row.querySelector("a[href*='solscan.io/account']") || row.querySelector("a[href*='bscscan.com/address']")`,
   * as the href of the chosen anchor.
   */
  function Link(row: Row): Option<string> {
    match Search.FindFirst(row.hrefs, IsSolscanLink)
    case Some(k) => Some(row.hrefs[k])
    case None =>
      match Search.FindFirst(row.hrefs, IsBscscanLink)
      case Some(k) => Some(row.hrefs[k])
      case None => None
  }

  /** The row has a link exactly when some anchor is a Solscan or a BscScan one, and the link is the chosen anchor's href. */
  lemma LinkShape(row: Row)
    ensures Link(row).None? <==> forall j :: 0 <= j < |row.hrefs| ==> !IsSolscanLink(row.hrefs[j]) && !IsBscscanLink(row.hrefs[j])
    ensures Link(row).Some? ==> exists k :: ChosenLinkAt(row.hrefs, k) && Link(row).value == row.hrefs[k]
  {
    match Search.FindFirst(row.hrefs, IsSolscanLink)
    case Some(k) =>
      assert ChosenLinkAt(row.hrefs, k);
    case None =>
      match Search.FindFirst(row.hrefs, IsBscscanLink)
      case Some(k) =>
        assert ChosenLinkAt(row.hrefs, k);
      case None =>
  }

  /** A Solscan anchor wins over any BscScan anchor, wherever they stand in the row. */
  lemma SolscanPreferred(row: Row, k: nat)
    requires k < |row.hrefs| && IsSolscanLink(row.hrefs[k])
    ensures Link(row).Some? && IsSolscanLink(Link(row).value)
  {
    var found := Search.FindFirst(row.hrefs, IsSolscanLink);
    assert found.Some?;
  }

  /** The trader address: the last path segment of the link. */
  function Address(row: Row): string
    requires Link(row).Some?
  {
    LastSegment(Link(row).value)
  }

  function CellAt(cells: seq<Cell>, k: nat): Option<Cell> {
    if k < |cells| then Some(cells[k]) else None
  }

  /**
   * `cells[k]?.textContent?.trim()`: `None` stands for `undefined`. The recursion over
   * `cells[1..]` is deliberate, for the induction; `CellTextAt` gives its closed form.
   */
  function CellText(cells: seq<Cell>, k: nat): Option<string> {
    if cells == [] then None
    else if k == 0 then Some(Trim(cells[0].text))
    else CellText(cells[1..], k - 1)
  }

  /** `CellText` reads the trimmed text of cell `k`, and is undefined past the last cell. */
  lemma {:induction false} CellTextAt(cells: seq<Cell>, k: nat)
    ensures CellText(cells, k) == if k < |cells| then Some(Trim(cells[k].text)) else None
  {
    if cells != [] && k > 0 {
      CellTextAt(cells[1..], k - 1);
    }
  }

  /** `cells[k]?.textContent?.trim() || ""`. */
  function CellTextOrEmpty(cells: seq<Cell>, k: nat): string {
    match CellText(cells, k)
    case Some(t) => OrElse(t, "")
    case None => ""
  }

  /** `cells[7]?.textContent?.trim() === "Unknown"` */
  predicate HasUnknownBalance(row: Row) {
    CellText(row.cells, BalanceCell) == Some(UnknownBalance)
  }

  function TrimmedOrEmpty(text: Option<string>): string {
    match text
    case Some(t) => Trim(t)
    case None => ""
  }

  /**
   * `getValues(cell)`: the USD amount from the primary span, else from the secondary
   * span, else ""; the token and transaction counts from the first and second count
   * spans, else "". A missing cell gives three empty strings.
   */
  function GetValues(cell: Option<Cell>): Amounts {
    match cell
    case None => Amounts("", "", "")
    case Some(c) =>
      Amounts(
        OrElse(OrElse(TrimmedOrEmpty(c.usdPrimary), TrimmedOrEmpty(c.usdSecondary)), ""),
        OrElse(if |c.countSpans| > 0 then Trim(c.countSpans[0]) else "", ""),
        OrElse(if |c.countSpans| > 1 then Trim(c.countSpans[1]) else "", ""))
  }

  /**
   * The USD amount falls back from the primary span to the secondary one; the trailing
   * `|| ""` defaults change nothing, since an absent span already reads as "".
   */
  lemma GetValuesFallbacks(cell: Option<Cell>)
    ensures var v := GetValues(cell);
      && (cell.None? ==> v == Amounts("", "", ""))
      && (cell.Some? && TrimmedOrEmpty(cell.value.usdPrimary) != "" ==> v.usd == TrimmedOrEmpty(cell.value.usdPrimary))
      && (cell.Some? && TrimmedOrEmpty(cell.value.usdPrimary) == "" ==> v.usd == TrimmedOrEmpty(cell.value.usdSecondary))
      && (cell.Some? ==> v.tokens == (if |cell.value.countSpans| > 0 then Trim(cell.value.countSpans[0]) else ""))
      && (cell.Some? ==> v.txns == (if |cell.value.countSpans| > 1 then Trim(cell.value.countSpans[1]) else ""))
  {
  }

  /** The record pushed for the row at raw position `index`. */
  function BuildRecord(row: Row, index: nat): TraderRecord
    requires Link(row).Some?
  {
    TraderRecord(
      index + 1,
      Address(row),
      Link(row).value,
      GetValues(CellAt(row.cells, BoughtCell)),
      GetValues(CellAt(row.cells, SoldCell)),
      CellTextOrEmpty(row.cells, PnlCell),
      CellTextOrEmpty(row.cells, UnrealizedCell),
      CellTextOrEmpty(row.cells, BalanceCell))
  }

  /**
   * What the row loop sees of a row: no explorer link, or the address it links to,
   * whether its balance is "Unknown", and the record it would push.
   */
  datatype Candidate = Unlinked | Linked(address: string, unknownBalance: bool, record: TraderRecord)

  function Classify(row: Row, index: nat): Candidate {
    match Link(row)
    case None => Unlinked
    case Some(_) => Linked(Address(row), HasUnknownBalance(row), BuildRecord(row, index))
  }

  /** The record of the row at raw position `index` is ranked `index + 1`, carries the row's address, and a balance other than "Unknown" unless the row is flagged. */
  lemma RecordFacts(row: Row, index: nat)
    requires Link(row).Some?
    ensures var rec := BuildRecord(row, index);
      && rec.rank == index + 1
      && rec.address == Address(row) == LastSegment(rec.addressUrl)
      && (!HasUnknownBalance(row) ==> rec.balance != UnknownBalance)
  {
  }

  /** The candidates of all rows, by raw position. */
  function Candidates(rows: seq<Row>): (cs: seq<Candidate>)
    ensures |cs| == |rows|
  {
    if rows == [] then []
    else Candidates(rows[..|rows| - 1]) + [Classify(rows[|rows| - 1], |rows| - 1)]
  }

  lemma {:induction false} CandidateAt(rows: seq<Row>, i: nat)
    requires i < |rows|
    ensures Candidates(rows)[i] == Classify(rows[i], i)
  {
    if i < |rows| - 1 {
      CandidateAt(rows[..|rows| - 1], i);
    }
  }

  /** What the candidate of row `i` records about that row. */
  lemma CandidateFacts(rows: seq<Row>, i: nat)
    requires i < |rows|
    ensures var c := Candidates(rows)[i];
      && (c.Linked? <==> Link(rows[i]).Some?)
      && (c.Linked? ==>
            && c.address == Address(rows[i])
            && c.unknownBalance == HasUnknownBalance(rows[i])
            && c.record == BuildRecord(rows[i], i))
  {
    CandidateAt(rows, i);
  }

  /** The records of linked candidates carry their raw position plus one as rank, and a known balance when not flagged. */
  ghost predicate WellRanked(cs: seq<Candidate>) {
    forall i :: 0 <= i < |cs| && cs[i].Linked? ==>
      && cs[i].record.rank == i + 1
      && cs[i].record.address == cs[i].address
      && (!cs[i].unknownBalance ==> cs[i].record.balance != UnknownBalance)
  }

  lemma CandidatesWellRanked(rows: seq<Row>)
    ensures WellRanked(Candidates(rows))
  {
    var cs := Candidates(rows);
    forall i | 0 <= i < |cs| && cs[i].Linked?
      ensures cs[i].record.rank == i + 1
      ensures cs[i].record.address == cs[i].address
      ensures !cs[i].unknownBalance ==> cs[i].record.balance != UnknownBalance
    {
      CandidateFacts(rows, i);
      RecordFacts(rows[i], i);
    }
  }

  /** The state of the row loop: the `seen` set and the `traders` array. */
  datatype Scan = Scan(seen: set<string>, traders: seq<TraderRecord>)

  /**
   * One turn of the `forEach` callback. The address joins `seen` before the balance
   * is looked at, so a row with an "Unknown" balance still claims its address.
   */
  function Visit(st: Scan, c: Candidate): Scan {
    match c
    case Unlinked => st
    case Linked(address, unknown, record) =>
      if address in st.seen then st
      else if unknown then Scan(st.seen + {address}, st.traders)
      else Scan(st.seen + {address}, st.traders + [record])
  }

  /** The loop state after the first `n` candidates. */
  function ScanAll(cs: seq<Candidate>, n: nat): Scan
    requires n <= |cs|
  {
    if n == 0 then Scan({}, []) else Visit(ScanAll(cs, n - 1), cs[n - 1])
  }

  /** The `traders` array the table extractor returns. */
  function TopTraders(rows: seq<Row>): seq<TraderRecord> {
    ScanAll(Candidates(rows), |rows|).traders
  }

  // ---------------------------------------------------------------------------
  // An independent, declarative description of which rows are kept.

  /** An earlier candidate already links to the address of candidate `i`. */
  ghost predicate SeenBefore(cs: seq<Candidate>, i: int)
    requires 0 <= i < |cs| && cs[i].Linked?
  {
    exists j :: 0 <= j < i && cs[j].Linked? && cs[j].address == cs[i].address
  }

  /** Candidate `i` yields a record: it is linked, first with its address, and its balance is known. */
  ghost predicate Kept(cs: seq<Candidate>, i: int) {
    && 0 <= i < |cs|
    && cs[i].Linked?
    && !SeenBefore(cs, i)
    && !cs[i].unknownBalance
  }

  /** The records of the kept candidates among the first `n`, in order. */
  ghost function KeptRecords(cs: seq<Candidate>, n: nat): seq<TraderRecord>
    requires n <= |cs|
  {
    if n == 0 then []
    else KeptRecords(cs, n - 1) + (if Kept(cs, n - 1) then [cs[n - 1].record] else [])
  }

  /** The addresses of all linked candidates among the first `n`. */
  ghost function LinkedAddresses(cs: seq<Candidate>, n: nat): set<string>
    requires n <= |cs|
  {
    set j | 0 <= j < n && cs[j].Linked? :: cs[j].address
  }

  /** The `seen` set holds every linked address so far, and `traders` is exactly the records of the kept candidates. */
  lemma {:induction false} ScanIsKeptRecords(cs: seq<Candidate>, n: nat)
    requires n <= |cs|
    ensures ScanAll(cs, n).seen == LinkedAddresses(cs, n)
    ensures ScanAll(cs, n).traders == KeptRecords(cs, n)
  {
    if n > 0 {
      ScanIsKeptRecords(cs, n - 1);
      var c := cs[n - 1];
      if c.Linked? {
        assert c.address in LinkedAddresses(cs, n - 1) <==> SeenBefore(cs, n - 1);
        assert LinkedAddresses(cs, n) == LinkedAddresses(cs, n - 1) + {c.address};
      } else {
        assert LinkedAddresses(cs, n) == LinkedAddresses(cs, n - 1);
      }
    }
  }

  /** Every kept record is the record of a kept candidate at raw index `rank - 1`. */
  lemma {:induction false} KeptRecordsFromKept(cs: seq<Candidate>, n: nat)
    requires n <= |cs| && WellRanked(cs)
    ensures forall k :: 0 <= k < |KeptRecords(cs, n)| ==>
      var rec := KeptRecords(cs, n)[k];
      1 <= rec.rank <= n && Kept(cs, rec.rank - 1) && rec == cs[rec.rank - 1].record
  {
    if n > 0 {
      KeptRecordsFromKept(cs, n - 1);
      var prev := KeptRecords(cs, n - 1);
      if Kept(cs, n - 1) {
        var r := prev + [cs[n - 1].record];
        assert KeptRecords(cs, n) == r;
        assert forall k :: 0 <= k < |prev| ==> r[k] == prev[k];
        assert r[|prev|] == cs[n - 1].record;
      } else {
        assert KeptRecords(cs, n) == prev;
      }
    }
  }

  /** Kept records come in strictly increasing rank. */
  lemma {:induction false} KeptRecordsIncreasing(cs: seq<Candidate>, n: nat)
    requires n <= |cs| && WellRanked(cs)
    ensures forall k1, k2 :: 0 <= k1 < k2 < |KeptRecords(cs, n)| ==> KeptRecords(cs, n)[k1].rank < KeptRecords(cs, n)[k2].rank
  {
    if n > 0 {
      KeptRecordsIncreasing(cs, n - 1);
      KeptRecordsFromKept(cs, n - 1);
      var prev := KeptRecords(cs, n - 1);
      if Kept(cs, n - 1) {
        var r := prev + [cs[n - 1].record];
        assert KeptRecords(cs, n) == r;
        assert forall k :: 0 <= k < |prev| ==> r[k] == prev[k] && r[k].rank <= n - 1;
        assert r[|prev|].rank == n;
      } else {
        assert KeptRecords(cs, n) == prev;
      }
    }
  }

  /** Every kept candidate among the first `n` has its record. */
  lemma {:induction false} KeptRecordsComplete(cs: seq<Candidate>, n: nat)
    requires n <= |cs| && WellRanked(cs)
    ensures forall i :: 0 <= i < n && Kept(cs, i) ==> exists k :: 0 <= k < |KeptRecords(cs, n)| && KeptRecords(cs, n)[k].rank == i + 1
  {
    if n > 0 {
      KeptRecordsComplete(cs, n - 1);
      var prev := KeptRecords(cs, n - 1);
      if Kept(cs, n - 1) {
        var r := prev + [cs[n - 1].record];
        assert KeptRecords(cs, n) == r;
        assert forall k :: 0 <= k < |prev| ==> r[k] == prev[k];
        assert r[|prev|].rank == n;
      } else {
        assert KeptRecords(cs, n) == prev;
      }
    }
  }

  /** Strictly increasing ranks in 1..bound leave room for at most `bound` records. */
  lemma {:induction false} RanksBoundLength(r: seq<TraderRecord>, bound: nat)
    requires forall k :: 0 <= k < |r| ==> 1 <= r[k].rank <= bound
    requires forall k1, k2 :: 0 <= k1 < k2 < |r| ==> r[k1].rank < r[k2].rank
    ensures |r| <= bound
  {
    if |r| > 0 {
      var last := r[|r| - 1];
      RanksBoundLength(r[..|r| - 1], last.rank - 1);
    }
  }

  /** There are never more kept records than candidates looked at. */
  lemma KeptRecordsBound(cs: seq<Candidate>, n: nat)
    requires n <= |cs| && WellRanked(cs)
    ensures |KeptRecords(cs, n)| <= n
  {
    KeptRecordsFromKept(cs, n);
    KeptRecordsIncreasing(cs, n);
    RanksBoundLength(KeptRecords(cs, n), n);
  }

  /** Kept records have pairwise distinct addresses. */
  lemma KeptRecordsDistinct(cs: seq<Candidate>, n: nat)
    requires n <= |cs| && WellRanked(cs)
    ensures forall k1, k2 :: 0 <= k1 < k2 < |KeptRecords(cs, n)| ==> KeptRecords(cs, n)[k1].address != KeptRecords(cs, n)[k2].address
  {
    KeptRecordsFromKept(cs, n);
    KeptRecordsIncreasing(cs, n);
    var r := KeptRecords(cs, n);
    forall k1, k2 | 0 <= k1 < k2 < |r| ensures r[k1].address != r[k2].address {
      var i1, i2 := r[k1].rank - 1, r[k2].rank - 1;
      assert Kept(cs, i1) && Kept(cs, i2) && i1 < i2;
      assert !SeenBefore(cs, i2);
      assert cs[i1].address != cs[i2].address;
    }
  }

  /** A flagged candidate that is first with its address claims it: no kept record carries that address. */
  lemma UnknownClaimsAddress(cs: seq<Candidate>, i: nat)
    requires WellRanked(cs) && i < |cs| && cs[i].Linked? && cs[i].unknownBalance && !SeenBefore(cs, i)
    ensures forall k :: 0 <= k < |KeptRecords(cs, |cs|)| ==> KeptRecords(cs, |cs|)[k].address != cs[i].address
  {
    KeptRecordsFromKept(cs, |cs|);
    var r := KeptRecords(cs, |cs|);
    forall k | 0 <= k < |r| ensures r[k].address != cs[i].address {
      var j := r[k].rank - 1;
      assert Kept(cs, j) && r[k] == cs[j].record;
      if j > i {
        assert !SeenBefore(cs, j);
        assert cs[i].address != cs[j].address;
      } else {
        assert j < i;
        assert cs[j].address != cs[i].address;
      }
    }
  }

  /** No kept record has the balance "Unknown". */
  lemma KeptRecordsKnownBalance(cs: seq<Candidate>, n: nat)
    requires n <= |cs| && WellRanked(cs)
    ensures forall k :: 0 <= k < |KeptRecords(cs, n)| ==> KeptRecords(cs, n)[k].balance != UnknownBalance
  {
    KeptRecordsFromKept(cs, n);
  }

  // ---------------------------------------------------------------------------
  // What the table extractor promises, stated over the rows.

  /** A row yields a record exactly when it links to an explorer, no earlier row links to the same address, and its balance is not "Unknown". */
  ghost predicate RowKept(rows: seq<Row>, i: int)
    requires 0 <= i < |rows|
  {
    && Link(rows[i]).Some?
    && (forall j :: 0 <= j < i && Link(rows[j]).Some? ==> Address(rows[j]) != Address(rows[i]))
    && !HasUnknownBalance(rows[i])
  }

  /** The output is the records of the kept candidates of the rows. */
  lemma TopTradersIsKeptRecords(rows: seq<Row>)
    ensures WellRanked(Candidates(rows))
    ensures TopTraders(rows) == KeptRecords(Candidates(rows), |rows|)
  {
    CandidatesWellRanked(rows);
    ScanIsKeptRecords(Candidates(rows), |rows|);
  }

  lemma RowKeptIsKept(rows: seq<Row>, i: int)
    requires 0 <= i < |rows|
    ensures RowKept(rows, i) <==> Kept(Candidates(rows), i)
  {
    var cs := Candidates(rows);
    forall j | 0 <= j <= i {
      CandidateFacts(rows, j);
    }
    if cs[i].Linked? && SeenBefore(cs, i) {
      var j :| 0 <= j < i && cs[j].Linked? && cs[j].address == cs[i].address;
      assert Link(rows[j]).Some? && Address(rows[j]) == Address(rows[i]);
    }
  }

  /**
   * The records are those of the kept rows, in row order: each record with rank `k`
   * is the record built from raw row `k - 1`, that row is kept, and every kept row has
   * its record.
   */
  lemma TopTradersAreKeptRows(rows: seq<Row>)
    ensures var r := TopTraders(rows);
      && (forall k :: 0 <= k < |r| ==>
            && 1 <= r[k].rank <= |rows|
            && RowKept(rows, r[k].rank - 1)
            && r[k] == BuildRecord(rows[r[k].rank - 1], r[k].rank - 1))
      && (forall i :: 0 <= i < |rows| && RowKept(rows, i) ==> exists k :: 0 <= k < |r| && r[k].rank == i + 1)
  {
    var cs := Candidates(rows);
    TopTradersIsKeptRecords(rows);
    KeptRecordsFromKept(cs, |rows|);
    KeptRecordsComplete(cs, |rows|);
    forall i | 0 <= i < |rows|
      ensures RowKept(rows, i) <==> Kept(cs, i)
      ensures cs[i].Linked? ==> Link(rows[i]).Some? && cs[i].record == BuildRecord(rows[i], i)
    {
      RowKeptIsKept(rows, i);
      CandidateFacts(rows, i);
    }
  }

  /**
   * Ranks are the raw row positions plus one: strictly increasing, so the records keep
   * row order, but with gaps wherever a row was skipped. There are never more records
   * than rows, and each address is the last path segment of its link.
   */
  lemma RanksFollowRows(rows: seq<Row>)
    ensures var r := TopTraders(rows);
      && |r| <= |rows|
      && (forall k1, k2 :: 0 <= k1 < k2 < |r| ==> r[k1].rank < r[k2].rank)
      && (forall k :: 0 <= k < |r| ==> r[k].rank <= |rows| && r[k].address == LastSegment(r[k].addressUrl))
  {
    var cs := Candidates(rows);
    TopTradersIsKeptRecords(rows);
    KeptRecordsFromKept(cs, |rows|);
    KeptRecordsIncreasing(cs, |rows|);
    KeptRecordsBound(cs, |rows|);
    var r := TopTraders(rows);
    forall k | 0 <= k < |r| ensures r[k].address == LastSegment(r[k].addressUrl) {
      var i := r[k].rank - 1;
      CandidateFacts(rows, i);
      RecordFacts(rows[i], i);
    }
  }

  /** Addresses are pairwise distinct, and no row before a record's own links to its address. */
  lemma AddressesDistinct(rows: seq<Row>)
    ensures var r := TopTraders(rows);
      && (forall k1, k2 :: 0 <= k1 < k2 < |r| ==> r[k1].address != r[k2].address)
      && (forall k, j :: 0 <= k < |r| && 0 <= j < |rows| && j < r[k].rank - 1 && Link(rows[j]).Some? ==> Address(rows[j]) != r[k].address)
  {
    TopTradersAreKeptRows(rows);
    TopTradersIsKeptRecords(rows);
    KeptRecordsDistinct(Candidates(rows), |rows|);
  }

  /** No record has the balance "Unknown". */
  lemma NoUnknownBalance(rows: seq<Row>)
    ensures forall k :: 0 <= k < |TopTraders(rows)| ==> TopTraders(rows)[k].balance != UnknownBalance
  {
    TopTradersIsKeptRecords(rows);
    KeptRecordsKnownBalance(Candidates(rows), |rows|);
  }

  /** A row without an explorer link contributes nothing: no record carries its rank. */
  lemma UnlinkedRowsIgnored(rows: seq<Row>, i: nat)
    requires i < |rows| && Link(rows[i]).None?
    ensures forall k :: 0 <= k < |TopTraders(rows)| ==> TopTraders(rows)[k].rank != i + 1
  {
    TopTradersAreKeptRows(rows);
  }

  /**
   * Three linked candidates, the second with the first one's address and the third,
   * with a new address, flagged "Unknown": only the first one's record is kept.
   */
  lemma DuplicateAndUnknownCandidates(cs: seq<Candidate>)
    requires |cs| == 3 && cs[0].Linked? && cs[1].Linked? && cs[2].Linked?
    requires cs[1].address == cs[0].address && cs[2].address != cs[0].address
    requires !cs[0].unknownBalance && cs[2].unknownBalance
    ensures ScanAll(cs, 3).traders == [cs[0].record]
  {
    assert ScanAll(cs, 1) == Scan({cs[0].address}, [cs[0].record]);
    assert ScanAll(cs, 2) == ScanAll(cs, 1);
  }

  /** A flagged candidate followed by a kept one with another address: only the second one's record is kept. */
  lemma RankGapCandidates(cs: seq<Candidate>)
    requires |cs| == 2 && cs[0].Linked? && cs[1].Linked? && cs[0].address != cs[1].address
    requires cs[0].unknownBalance && !cs[1].unknownBalance
    ensures ScanAll(cs, 2).traders == [cs[1].record]
  {
    assert ScanAll(cs, 1) == Scan({cs[0].address}, []);
  }

  /**
   * The row loop: one pass in document order, a `seen` set of addresses and a growing
   * `traders` array, with each early `return` of the callback skipping to the next row.
   */
  method CollectTraders(rows: seq<Row>) returns (traders: seq<TraderRecord>)
    ensures traders == TopTraders(rows)
  {
    traders := [];
    var seen: set<string> := {};
    var index := 0;
    while index < |rows|
      invariant 0 <= index <= |rows|
      invariant Scan(seen, traders) == ScanAll(Candidates(rows), index)
    {
      var row := rows[index];
      CandidateAt(rows, index);
      ghost var before := Scan(seen, traders);
      ghost var c := Classify(row, index);
      var link := Link(row);
      if link.Some? {
        var address := LastSegment(link.value);
        assert c == Linked(address, HasUnknownBalance(row), BuildRecord(row, index));
        if address !in seen {
          seen := seen + {address};
          if !HasUnknownBalance(row) {
            traders := traders + [BuildRecord(row, index)];
          }
        }
      }
      assert Scan(seen, traders) == Visit(before, c);
      index := index + 1;
    }
  }
}

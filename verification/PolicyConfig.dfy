/** The versioned configuration, its validator, and the document printed from it. */
module PolicyConfig {
  import opened Wrappers
  import opened Text
  import opened PolicyModel
  import opened PolicyTheory

  /** Table rows. `detail` stands for the columns neither the validator nor the printer reads. */
  datatype MarketRow = MarketRow(marketCode: string, exchangeCode: string, enabled: bool, detail: string)
  datatype ColocationRow = ColocationRow(coloId: int, detail: string)
  datatype ProductRow = ProductRow(fundId: int, fundCode: string, allowedMarkets: string, status: string,
      detail: string)
  datatype ProjectRow = ProjectRow(projectId: int, fundId: int, enabled: bool, detail: string)
  datatype AccountRow = AccountRow(accountId: string, accountType: string, coloId: int, status: string, detail: string)
  datatype LinkRow = LinkRow(projectId: int, accountId: string, accountType: string, defaultFlag: bool, fundId: int,
      detail: string)
  datatype SecurityRow = SecurityRow(
    marketCode: string, symbol: string, suspended: bool, buyAllowed: bool, sellAllowed: bool, cancelAllowed: bool,
    tick: nat, buyUnit: int, sellUnit: int, maxQuantity: int, minQuantity: int, detail: string)
  datatype FuturesProductRow = FuturesProductRow(marketCode: string, productCode: string, detail: string)
  datatype FuturesContractRow = FuturesContractRow(marketCode: string, symbol: string, productCode: string,
      detail: string)

  /** One version's tables, each in the order its query returns. */
  datatype Config = Config(
    markets: seq<MarketRow>, colocations: seq<ColocationRow>, products: seq<ProductRow>,
    projects: seq<ProjectRow>, accounts: seq<AccountRow>, links: seq<LinkRow>,
    securities: seq<SecurityRow>, futuresProducts: seq<FuturesProductRow>, futuresContracts: seq<FuturesContractRow>)

  // ---------------------------------------------------------------- printing

  datatype Row =
    | OfMarket(m: MarketRow) | OfProduct(p: ProductRow) | OfProject(j: ProjectRow)
    | OfAccount(a: AccountRow) | OfLink(l: LinkRow) | OfSecurity(s: SecurityRow)

  function RowFields(row: Row): (f: seq<string>)
    ensures f != [] && |f| == Arity(f[0]) && f[0] != ""
  {
    match row
    case OfMarket(m) => ["MARKET", m.marketCode, m.exchangeCode, BoolText(m.enabled)]
    case OfProduct(p) => ["PRODUCT", IntText(p.fundId), p.fundCode, p.status, p.allowedMarkets]
    case OfProject(j) => ["PROJECT", IntText(j.projectId), IntText(j.fundId), BoolText(j.enabled)]
    case OfAccount(a) => ["ACCOUNT", a.accountId, a.accountType, a.status]
    case OfLink(l) => ["LINK", IntText(l.projectId), l.accountId, l.accountType, BoolText(l.defaultFlag),
        IntText(l.fundId)]
    case OfSecurity(s) =>
      ["SECURITY", s.marketCode, s.symbol, BoolText(s.suspended), BoolText(s.buyAllowed), BoolText(s.sellAllowed),
       BoolText(s.cancelAllowed), TickText(s.tick), IntText(s.buyUnit), IntText(s.sellUnit), IntText(s.maxQuantity),
       IntText(s.minQuantity)]
  }

  function MarketRows(c: Config): seq<Row> {
    seq(|c.markets|, i requires 0 <= i < |c.markets| => OfMarket(c.markets[i]))
  }

  function ProductRows(c: Config): seq<Row> {
    seq(|c.products|, i requires 0 <= i < |c.products| => OfProduct(c.products[i]))
  }

  function ProjectRows(c: Config): seq<Row> {
    seq(|c.projects|, i requires 0 <= i < |c.projects| => OfProject(c.projects[i]))
  }

  function AccountRows(c: Config): seq<Row> {
    seq(|c.accounts|, i requires 0 <= i < |c.accounts| => OfAccount(c.accounts[i]))
  }

  function LinkRows(c: Config): seq<Row> { seq(|c.links|, i requires 0 <= i < |c.links| => OfLink(c.links[i])) }

  function SecurityRows(c: Config): seq<Row> {
    seq(|c.securities|, i requires 0 <= i < |c.securities| => OfSecurity(c.securities[i]))
  }

  /** The rows in the order they are printed. */
  function Rows(c: Config): seq<Row> {
    MarketRows(c) + ProductRows(c) + ProjectRows(c) + AccountRows(c) + LinkRows(c) + SecurityRows(c)
  }

  function RowLines(rows: seq<Row>): (r: seq<string>)
    ensures |r| == |rows|
    ensures forall i :: 0 <= i < |rows| ==> r[i] == Join(RowFields(rows[i]), '\t')
  {
    seq(|rows|, i requires 0 <= i < |rows| => Join(RowFields(rows[i]), '\t'))
  }

  function Render(version: int, rows: seq<Row>): string {
    Join([HEADER, "VERSION\t" + IntText(version)] + RowLines(rows), '\n') + "\n"
  }

  /** The printer: two head lines, then a line a row, table by table. */
  method PrintPolicy(version: int, c: Config) returns (document: string)
    ensures document == Render(version, Rows(c))
  {
    hide Join, RowFields, Rows;
    var rows := Rows(c);
    var lines := [HEADER, "VERSION\t" + IntText(version)];
    for i := 0 to |rows|
      invariant lines == [HEADER, "VERSION\t" + IntText(version)] + RowLines(rows)[..i]
    {
      lines := lines + [Join(RowFields(rows[i]), '\t')];
    }
    assert RowLines(rows)[..|rows|] == RowLines(rows);
    document := Join(lines, '\n') + "\n";
  }

  // ---------------------------------------------------------------- reading back

  /** The record a row stands for. */
  function RecordOf(row: Row): Record {
    match row
    case OfMarket(m) => Market(m.exchangeCode, MarketRule(m.marketCode, m.enabled))
    case OfProduct(p) => Product(p.fundId, ProductRule(p.fundCode, p.status == "1", MarketSet(p.allowedMarkets)))
    case OfProject(j) => Project(j.projectId, ProjectRule(j.fundId, j.enabled))
    case OfAccount(a) => Account(a.accountId, a.accountType, a.status == "1")
    case OfLink(l) => Link(IntText(l.projectId), l.accountId, l.accountType, BoolText(l.defaultFlag), IntText(l.fundId))
    case OfSecurity(s) => Security(s.symbol, SecurityRule(s.suspended, s.buyAllowed, s.sellAllowed, s.cancelAllowed,
        s.tick as real / TICK_SCALE as real, s.buyUnit, s.sellUnit, s.maxQuantity, s.minQuantity, s.marketCode))
  }

  function RecordsOf(rows: seq<Row>): (r: seq<Record>)
    ensures |r| == |rows|
    ensures forall i :: 0 <= i < |rows| ==> r[i] == RecordOf(rows[i])
  {
    seq(|rows|, i requires 0 <= i < |rows| => RecordOf(rows[i]))
  }

  ghost predicate Clean(s: string) {
    Free(s, '\t') && Free(s, '\n')
  }

  predicate Id(n: int) { 0 < n <= INT_MAX }

  predicate Count(n: int) { 0 <= n <= INT_MAX }

  /** What the request schema and the 32-bit columns guarantee, plus fields free of tab and newline.
      An account's status is left open: the schema admits any single character. */
  ghost predicate Conforms(row: Row) {
    match row
    case OfMarket(m) => m.marketCode != "" && m.exchangeCode != "" && Clean(m.marketCode) && Clean(m.exchangeCode)
    case OfProduct(p) => Id(p.fundId) && p.fundCode != "" && Clean(p.fundCode) && Clean(p.status)
        && Clean(p.allowedMarkets)
    case OfProject(j) => Id(j.projectId) && Id(j.fundId)
    case OfAccount(a) => a.accountId != "" && a.accountType != "" && Clean(a.accountId) && Clean(a.accountType)
        && Clean(a.status)
    case OfLink(l) => Id(l.projectId) && Id(l.fundId) && Clean(l.accountId) && Clean(l.accountType)
    case OfSecurity(s) =>
      s.marketCode != "" && s.symbol != "" && Clean(s.marketCode) && Clean(s.symbol) && 0 < s.tick < TICK_BOUND
      && Id(s.buyUnit) && Id(s.sellUnit) && Count(s.maxQuantity) && Count(s.minQuantity)
  }

  /** The two row conditions the reader adds to the schema. */
  predicate Readable(row: Row) {
    && (row.OfAccount? ==> row.a.status == "0" || row.a.status == "1")
    && (row.OfSecurity? && row.s.maxQuantity > 0 ==> row.s.minQuantity <= row.s.maxQuantity)
  }

  lemma NumeralsAreClean(n: int, b: bool, tick: nat)
    ensures Clean(IntText(n)) && Clean(BoolText(b)) && Clean(TickText(tick))
  {
  }

  lemma KindsAreClean()
    ensures Clean("MARKET") && Clean("PRODUCT") && Clean("PROJECT")
    ensures Clean("ACCOUNT") && Clean("LINK") && Clean("SECURITY")
  {
  }

  ghost predicate AllClean(fields: seq<string>) {
    forall i :: 0 <= i < |fields| ==> Clean(fields[i])
  }

  lemma SecurityFieldsAreClean(s: SecurityRow)
    requires Conforms(OfSecurity(s))
    ensures AllClean(RowFields(OfSecurity(s)))
  {
    KindsAreClean();
    NumeralsAreClean(s.buyUnit, s.suspended, s.tick);
    NumeralsAreClean(s.sellUnit, s.buyAllowed, 0);
    NumeralsAreClean(s.maxQuantity, s.sellAllowed, 0);
    NumeralsAreClean(s.minQuantity, s.cancelAllowed, 0);
  }

  lemma RowFieldsAreClean(row: Row)
    requires Conforms(row)
    ensures AllClean(RowFields(row))
  {
    KindsAreClean();
    match row
    case OfMarket(m) => NumeralsAreClean(0, m.enabled, 0);
    case OfProduct(p) => NumeralsAreClean(p.fundId, true, 0);
    case OfProject(j) => NumeralsAreClean(j.projectId, j.enabled, 0); NumeralsAreClean(j.fundId, true, 0);
    case OfAccount(a) =>
    case OfLink(l) => NumeralsAreClean(l.projectId, l.defaultFlag, 0); NumeralsAreClean(l.fundId, true, 0);
    case OfSecurity(s) => SecurityFieldsAreClean(s);
  }

  lemma ReadSecurityRow(s: SecurityRow)
    requires Conforms(OfSecurity(s))
    ensures ReadSecurity(RowFields(OfSecurity(s))) ==
      if Readable(OfSecurity(s)) then Some(RecordOf(OfSecurity(s))) else None
  {
    hide Decimal, Value, ParseDouble, ParseInt, IntText, TickText;
    ParseTickText(s.tick);
    ParseIntText(s.buyUnit);
    ParseIntText(s.sellUnit);
    ParseIntText(s.maxQuantity);
    ParseIntText(s.minQuantity);
    assert s.tick as real / TICK_SCALE as real > 0.0;
  }

  /** A conforming row is read back as its record, or refused if it is not readable. */
  lemma ReadRow(row: Row)
    requires Conforms(row)
    ensures ReadRecord(RowFields(row)) == if Readable(row) then Some(RecordOf(row)) else None
  {
    hide ReadSecurity, MarketSet, ParseInt, IntText, TickText;
    match row
    case OfMarket(m) =>
    case OfProduct(p) => ParseIntText(p.fundId);
    case OfProject(j) => ParseIntText(j.projectId); ParseIntText(j.fundId);
    case OfAccount(a) =>
    case OfLink(l) =>
    case OfSecurity(s) => ReadSecurityRow(s);
  }

  lemma {:induction false} JoinIsFree(fields: seq<string>, d: char, c: char)
    requires fields != [] && c != d && forall i :: 0 <= i < |fields| ==> Free(fields[i], c)
    ensures Free(Join(fields, d), c)
  {
    if |fields| > 1 { JoinIsFree(fields[1..], d, c); }
  }

  lemma RowLineReads(row: Row, d: Draft, number: nat)
    requires Conforms(row)
    ensures var line := Join(RowFields(row), '\t');
      && line != "" && Free(line, '\n') && Fields(line, '\t') == RowFields(row)
  {
    RowFieldsAreClean(row);
    FieldsOfJoin(RowFields(row), '\t');
    JoinIsFree(RowFields(row), '\t', '\n');
    assert Join(RowFields(row), '\t')[0] == RowFields(row)[0][0];
  }

  lemma AddRowLine(row: Row, d: Draft, number: nat)
    requires Conforms(row)
    ensures var r := AddLine(d, Join(RowFields(row), '\t'), number);
      if Readable(row) && Add(d, RecordOf(row)).Some? then r == Ok(Add(d, RecordOf(row)).value) else r.Err?
  {
    RowLineReads(row, d, number);
    ReadRow(row);
  }

  ghost predicate AllConform(rows: seq<Row>) {
    forall i :: 0 <= i < |rows| ==> Conforms(rows[i])
  }

  ghost predicate AllReadable(rows: seq<Row>) {
    forall i :: 0 <= i < |rows| ==> Readable(rows[i])
  }

  lemma FrontOfRows(front: seq<Row>, row: Row)
    ensures RowLines(front + [row]) == RowLines(front) + [Join(RowFields(row), '\t')]
    ensures RecordsOf(front + [row]) == RecordsOf(front) + [RecordOf(row)]
  {
  }

  lemma AddLinesSnoc(version: int, front: seq<string>, line: string)
    ensures AddLines(version, front + [line]) ==
      match AddLines(version, front) case Err(e) => Err(e) case Ok(d) => AddLine(d, line, |front| + 3)
  {
  }

  lemma AddAllSnoc(version: int, front: seq<Record>, r: Record)
    ensures AddAll(version, front + [r]) == match AddAll(version, front) case None => None case Some(d) => Add(d, r)
  {
  }

  /** The outcome of reading the rows' lines. */
  ghost predicate RowsRead(rows: seq<Row>, added: Option<Draft>, r: Result<Draft, Error>) {
    if AllReadable(rows) && added.Some? then r == Ok(added.value) else r.Err?
  }

  lemma RowsReadStep(front: seq<Row>, row: Row, added: Option<Draft>, read: Result<Draft, Error>, number: nat)
    requires RowsRead(front, added, read) && Conforms(row)
    ensures RowsRead(front + [row],
      match added { case None => None case Some(d) => Add(d, RecordOf(row)) },
      match read { case Err(e) => Err(e) case Ok(d) => AddLine(d, Join(RowFields(row), '\t'), number) })
  {
    AllReadableSnoc(front, row);
    if read.Ok? { AddRowLine(row, read.value, number); }
  }

  lemma AllReadableSnoc(front: seq<Row>, row: Row)
    ensures AllReadable(front + [row]) <==> AllReadable(front) && Readable(row)
  {
    var rows := front + [row];
    assert rows[|front|] == row;
    assert forall i :: 0 <= i < |front| ==> rows[i] == front[i];
  }

  lemma NoRowsRead(version: int)
    ensures RowsRead([], AddAll(version, RecordsOf([])), AddLines(version, RowLines([])))
  {
    assert RecordsOf([]) == [] && RowLines([]) == [];
  }

  lemma {:induction false} AddRowLines(version: int, rows: seq<Row>)
    requires AllConform(rows)
    ensures RowsRead(rows, AddAll(version, RecordsOf(rows)), AddLines(version, RowLines(rows)))
    decreases |rows|
  {
    hide RowsRead, AddAll, AddLines, Add, RecordsOf, RowLines, RecordOf, RowFields, Conforms;
    if rows == [] {
      NoRowsRead(version);
    } else {
      var front, row := rows[..|rows| - 1], rows[|rows| - 1];
      assert rows == front + [row];
      AddRowLines(version, front);
      FrontOfRows(front, row);
      AddAllSnoc(version, RecordsOf(front), RecordOf(row));
      AddLinesSnoc(version, RowLines(front), Join(RowFields(row), '\t'));
      RowsReadStep(front, row, AddAll(version, RecordsOf(front)), AddLines(version, RowLines(front)), |rows| + 2);
    }
  }

  lemma ReadVersionLine(version: int)
    requires Id(version)
    ensures ReadVersion("VERSION\t" + IntText(version)) == Some(version)
    ensures Free("VERSION\t" + IntText(version), '\n')
  {
    hide IntText, ParseInt, Fields;
    NumeralsAreClean(version, true, 0);
    var f := ["VERSION", IntText(version)];
    assert Join(f, '\t') == "VERSION\t" + IntText(version);
    FieldsOfJoin(f, '\t');
    ParseIntText(version);
    JoinIsFree(f, '\t', '\n');
  }

  lemma LinesOfRender(version: int, rows: seq<Row>)
    requires Id(version) && AllConform(rows)
    ensures Lines(Render(version, rows)) == [HEADER, "VERSION\t" + IntText(version)] + RowLines(rows)
  {
    var lines := [HEADER, "VERSION\t" + IntText(version)] + RowLines(rows);
    ReadVersionLine(version);
    forall i | 0 <= i < |lines| ensures Free(lines[i], '\n') {
      if i >= 2 { RowLineReads(rows[i - 2], EmptyDraft(version), 0); }
    }
    LinesOfJoin(lines);
  }

  /** What a document with a sound head means. */
  lemma ParseSoundHead(document: string, versionLine: string, body: seq<string>, version: int)
    requires Lines(document) == [HEADER, versionLine] + body && ReadVersion(versionLine) == Some(version)
    ensures ParseDocument(document) == match AddLines(version, body)
      case Err(e) => Err(e)
      case Ok(d) => (LinesKeepLinks(version, body); Finish(d))
  {
  }

  /** Printing then parsing loses nothing: the document is accepted exactly when its rows are
      readable and their records are accepted, and it then stands for those very records. */
  lemma RenderThenParse(version: int, rows: seq<Row>)
    requires Id(version) && AllConform(rows)
    ensures var r := ParseDocument(Render(version, rows));
      if AllReadable(rows) && Interpret(version, RecordsOf(rows)).Some?
      then r == Ok(Interpret(version, RecordsOf(rows)).value) else r.Err?
  {
    LinesOfRender(version, rows);
    ReadVersionLine(version);
    ParseSoundHead(Render(version, rows), "VERSION\t" + IntText(version), RowLines(rows), version);
    AddRowLines(version, rows);
  }
}

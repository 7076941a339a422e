/** What the validator's silence guarantees: exactly when the core accepts the printed document. */
module PolicyAcceptance {
  import opened Text
  import opened PolicyModel
  import opened PolicyTheory
  import opened PolicyConfig
  import opened PolicyValidator
  import opened Wrappers

  // ---------------------------------------------------------------- the three omitted conditions

  ghost predicate DistinctExchanges(c: Config) {
    forall i, j :: 0 <= i < j < |c.markets| ==> c.markets[i].exchangeCode != c.markets[j].exchangeCode
  }

  ghost predicate BinaryStatuses(c: Config) {
    forall a :: a in c.accounts ==> a.status == "0" || a.status == "1"
  }

  /** Every active product reached by the default link of an enabled project names a market. */
  ghost predicate DefaultsNameMarkets(c: Config) {
    forall l, j, p :: l in c.links && j in c.projects && p in c.products && InForce(l, j, p)
        ==> MarketSet(p.allowedMarkets) != {}
  }

  predicate InForce(l: LinkRow, j: ProjectRow, p: ProductRow) {
    l.defaultFlag && j.projectId == l.projectId && j.enabled && p.fundId == l.fundId && p.status == "1"
  }

  /** The unique constraints of the tables, on the columns that are printed as keys. */
  ghost predicate UniqueKeys(c: Config) {
    && (forall i, j :: 0 <= i < j < |c.products| ==> c.products[i].fundId != c.products[j].fundId)
    && (forall i, j :: 0 <= i < j < |c.projects| ==> c.projects[i].projectId != c.projects[j].projectId)
    && (forall i, j :: 0 <= i < j < |c.accounts| ==> c.accounts[i].accountId != c.accounts[j].accountId)
    && (forall i, j :: 0 <= i < j < |c.securities| ==>
          c.securities[i].marketCode != c.securities[j].marketCode || c.securities[i].symbol != c.securities[j].symbol)
  }

  ghost predicate ColonFreeMarkets(c: Config) {
    forall s :: s in c.securities ==> Free(s.marketCode, ':')
  }

  // ---------------------------------------------------------------- what silence says about a row

  lemma NoIssues(c: Config, pass: Pass, i: nat)
    requires Issues(c) == [] && i < Size(c, pass)
    ensures IssuesAt(c, pass, i) == []
  {
    hide IssuesAt, IssuesTo, MarketIssues;
    assert PassIssues(c, pass) == [];
    IssuesToEmpty(c, pass, Size(c, pass));
  }

  /** A link's project, product and account exist and agree with it. */
  lemma SoundLink(c: Config, l: LinkRow) returns (j: ProjectRow, p: ProductRow, a: AccountRow)
    requires Issues(c) == [] && l in c.links
    ensures j in c.projects && j.projectId == l.projectId && j.fundId == l.fundId
    ensures p in c.products && p.fundId == l.fundId
    ensures a in c.accounts && a.accountId == l.accountId && a.accountType == l.accountType
  {
    var i: nat :| i < |c.links| && c.links[i] == l;
    NoIssues(c, Links, i);
    j, a := FindProject(c.projects, l.projectId).value, FindAccount(c.accounts, l.accountId).value;
    p :| p in c.products && p.fundId == l.fundId;
  }

  lemma SoundSecurityRow(c: Config, s: SecurityRow)
    requires Issues(c) == [] && s in c.securities
    ensures exists m :: m in c.markets && m.marketCode == s.marketCode
    ensures s.minQuantity != 0 && s.maxQuantity != 0 ==> s.minQuantity <= s.maxQuantity
  {
    var i: nat :| i < |c.securities| && c.securities[i] == s;
    NoIssues(c, Securities, i);
    assert s.marketCode in MarketCodes(c);
  }

  // ---------------------------------------------------------------- rows and records

  function Rank(row: Row): nat {
    match row
    case OfMarket(_) => 0
    case OfProduct(_) => 1
    case OfProject(_) => 2
    case OfAccount(_) => 3
    case OfLink(_) => 4
    case OfSecurity(_) => 5
  }

  ghost predicate DistinctRows(rows: seq<Row>) {
    forall i, j :: 0 <= i < j < |rows| && KeyOf(RecordOf(rows[i])) == KeyOf(RecordOf(rows[j])) ==> rows[i].OfLink?
  }

  lemma DistinctRowsIff(rows: seq<Row>)
    ensures DistinctKeys(RecordsOf(rows)) <==> DistinctRows(rows)
  {
  }

  lemma SameKeySameRank(x: Row, y: Row)
    requires KeyOf(RecordOf(x)) == KeyOf(RecordOf(y))
    ensures Rank(x) == Rank(y)
  {
  }

  lemma DistinctConcat(a: seq<Row>, b: seq<Row>, k: nat)
    requires (forall x :: x in a ==> Rank(x) < k) && (forall y :: y in b ==> Rank(y) == k)
    ensures DistinctRows(a + b) <==> DistinctRows(a) && DistinctRows(b)
    ensures forall x :: x in a + b ==> Rank(x) < k + 1
  {
    var ab := a + b;
    hide RecordOf, KeyOf;
    if DistinctRows(ab) {
      forall i, j | 0 <= i < j < |a| && KeyOf(RecordOf(a[i])) == KeyOf(RecordOf(a[j])) ensures a[i].OfLink? {
        assert ab[i] == a[i] && ab[j] == a[j];
      }
      forall i, j | 0 <= i < j < |b| && KeyOf(RecordOf(b[i])) == KeyOf(RecordOf(b[j])) ensures b[i].OfLink? {
        assert ab[|a| + i] == b[i] && ab[|a| + j] == b[j];
      }
    }
    if DistinctRows(a) && DistinctRows(b) {
      forall i, j | 0 <= i < j < |ab| && KeyOf(RecordOf(ab[i])) == KeyOf(RecordOf(ab[j])) ensures ab[i].OfLink? {
        SameKeySameRank(ab[i], ab[j]);
        if i < |a| { assert ab[i] in a; }
        if |a| <= j { assert ab[j] in b; }
        if |a| <= i { assert ab[i] == b[i - |a|] && ab[j] == b[j - |a|]; }
      }
    }
  }

  lemma SegmentsDistinct(c: Config)
    requires UniqueKeys(c) && ColonFreeMarkets(c)
    ensures DistinctRows(MarketRows(c)) <==> DistinctExchanges(c)
    ensures DistinctRows(ProductRows(c)) && DistinctRows(ProjectRows(c)) && DistinctRows(AccountRows(c))
    ensures DistinctRows(LinkRows(c)) && DistinctRows(SecurityRows(c))
  {
    var m := MarketRows(c);
    if DistinctRows(m) {
      forall i, j | 0 <= i < j < |c.markets| ensures c.markets[i].exchangeCode != c.markets[j].exchangeCode {
        assert m[i] == OfMarket(c.markets[i]) && m[j] == OfMarket(c.markets[j]);
      }
    }
    SecuritiesDistinct(c);
  }

  lemma SecurityKeysDiffer(s: SecurityRow, t: SecurityRow)
    requires Free(s.marketCode, ':') && Free(t.marketCode, ':')
        && (s.marketCode != t.marketCode || s.symbol != t.symbol)
    ensures KeyOf(RecordOf(OfSecurity(s))) != KeyOf(RecordOf(OfSecurity(t)))
  {
    if SecurityKey(s.marketCode, s.symbol) == SecurityKey(t.marketCode, t.symbol) {
      SecurityKeyInjective(s.marketCode, s.symbol, t.marketCode, t.symbol);
    }
  }

  lemma SecuritiesDistinct(c: Config)
    requires UniqueKeys(c) && ColonFreeMarkets(c)
    ensures DistinctRows(SecurityRows(c))
  {
    var rows := SecurityRows(c);
    hide RecordOf, KeyOf;
    forall i, j | 0 <= i < j < |rows| ensures KeyOf(RecordOf(rows[i])) != KeyOf(RecordOf(rows[j])) {
      SecurityKeysDiffer(c.securities[i], c.securities[j]);
    }
  }

  /** With the table constraints, the printed keys are distinct exactly when the exchange codes are. */
  lemma KeysDistinctIff(c: Config)
    requires UniqueKeys(c) && ColonFreeMarkets(c)
    ensures DistinctKeys(RecordsOf(Rows(c))) <==> DistinctExchanges(c)
  {
    SegmentsDistinct(c);
    hide DistinctRows;
    var a := MarketRows(c);
    DistinctConcat(a, ProductRows(c), 1);
    a := a + ProductRows(c);
    DistinctConcat(a, ProjectRows(c), 2);
    a := a + ProjectRows(c);
    DistinctConcat(a, AccountRows(c), 3);
    a := a + AccountRows(c);
    DistinctConcat(a, LinkRows(c), 4);
    a := a + LinkRows(c);
    DistinctConcat(a, SecurityRows(c), 5);
    DistinctRowsIff(Rows(c));
  }

  /** Every row of every table is printed. */
  lemma Printed(c: Config)
    ensures forall x :: x in c.markets ==> OfMarket(x) in Rows(c)
    ensures forall x :: x in c.products ==> OfProduct(x) in Rows(c)
    ensures forall x :: x in c.projects ==> OfProject(x) in Rows(c)
    ensures forall x :: x in c.accounts ==> OfAccount(x) in Rows(c)
    ensures forall x :: x in c.links ==> OfLink(x) in Rows(c)
    ensures forall x :: x in c.securities ==> OfSecurity(x) in Rows(c)
  {
    forall x | x in c.markets ensures OfMarket(x) in MarketRows(c) {
      var i :| 0 <= i < |c.markets| && c.markets[i] == x; assert MarketRows(c)[i] == OfMarket(x);
    }
    forall x | x in c.products ensures OfProduct(x) in ProductRows(c) {
      var i :| 0 <= i < |c.products| && c.products[i] == x; assert ProductRows(c)[i] == OfProduct(x);
    }
    forall x | x in c.projects ensures OfProject(x) in ProjectRows(c) {
      var i :| 0 <= i < |c.projects| && c.projects[i] == x; assert ProjectRows(c)[i] == OfProject(x);
    }
    forall x | x in c.accounts ensures OfAccount(x) in AccountRows(c) {
      var i :| 0 <= i < |c.accounts| && c.accounts[i] == x; assert AccountRows(c)[i] == OfAccount(x);
    }
    forall x | x in c.links ensures OfLink(x) in LinkRows(c) {
      var i :| 0 <= i < |c.links| && c.links[i] == x; assert LinkRows(c)[i] == OfLink(x);
    }
    forall x | x in c.securities ensures OfSecurity(x) in SecurityRows(c) {
      var i :| 0 <= i < |c.securities| && c.securities[i] == x; assert SecurityRows(c)[i] == OfSecurity(x);
    }
  }

  /** Nothing else is printed. */
  lemma PrintedOnly(c: Config, row: Row)
    requires row in Rows(c)
    ensures match row
      case OfMarket(x) => x in c.markets
      case OfProduct(x) => x in c.products
      case OfProject(x) => x in c.projects
      case OfAccount(x) => x in c.accounts
      case OfLink(x) => x in c.links
      case OfSecurity(x) => x in c.securities
  {
  }

  lemma RecordPrinted(rows: seq<Row>, row: Row)
    requires row in rows
    ensures RecordOf(row) in RecordsOf(rows)
  {
  }

  lemma RecordHasRow(rows: seq<Row>, r: Record) returns (row: Row)
    requires r in RecordsOf(rows)
    ensures row in rows && RecordOf(row) == r
  {
    var i :| 0 <= i < |rows| && RecordsOf(rows)[i] == r;
    row := rows[i];
  }

  // ---------------------------------------------------------------- the core's side of each check

  lemma ReadableIff(c: Config)
    requires Issues(c) == [] && AllConform(Rows(c))
    ensures AllReadable(Rows(c)) <==> BinaryStatuses(c)
  {
    var rows := Rows(c);
    Printed(c);
    hide Issues, Rows;
    if AllReadable(rows) {
      forall a | a in c.accounts ensures a.status == "0" || a.status == "1" {
        var i :| 0 <= i < |rows| && rows[i] == OfAccount(a);
        assert Readable(rows[i]);
      }
    }
    if BinaryStatuses(c) {
      forall i | 0 <= i < |rows| ensures Readable(rows[i]) {
        PrintedOnly(c, rows[i]);
        assert Conforms(rows[i]);
        if rows[i].OfSecurity? { SoundSecurityRow(c, rows[i].s); }
      }
    }
  }

  ghost predicate RowLinkOk(p: Policy, l: LinkRow) {
    LinkOk(p, RecordOf(OfLink(l)))
  }

  /** What the maps say about a printed link whose three references are printed too. */
  lemma LinkOkIff(d: Draft, rs: seq<Record>, l: LinkRow, j: ProjectRow, p: ProductRow, a: AccountRow)
    requires Mirrors(d, rs) && Id(l.projectId) && Id(l.fundId)
    requires RecordOf(OfProject(j)) in rs && RecordOf(OfProduct(p)) in rs && RecordOf(OfAccount(a)) in rs
    requires j.projectId == l.projectId && j.fundId == l.fundId && p.fundId == l.fundId
    requires a.accountId == l.accountId && a.accountType == l.accountType
    ensures RowLinkOk(d.policy, l) <==> (InForce(l, j, p) ==> MarketSet(p.allowedMarkets) != {})
  {
    hide MarketSet;
    assert Holds(d, RecordOf(OfProject(j))) && Holds(d, RecordOf(OfProduct(p))) && Holds(d, RecordOf(OfAccount(a)));
    ParseIntText(l.projectId);
    ParseIntText(l.fundId);
    hide ParseInt, IntText;
  }

  ghost predicate LinksSound(p: Policy, rs: seq<Record>) {
    forall l :: l in rs && l.Link? ==> LinkOk(p, l)
  }

  lemma LinksSoundIff(c: Config, d: Draft)
    requires Issues(c) == [] && AllConform(Rows(c)) && UniqueKeys(c) && Mirrors(d, RecordsOf(Rows(c)))
    ensures LinksSound(d.policy, RecordsOf(Rows(c))) <==> DefaultsNameMarkets(c)
  {
    var rows := Rows(c);
    var rs := RecordsOf(rows);
    hide Rows, MarketSet, Mirrors, Issues;
    if LinksSound(d.policy, rs) {
      forall l, j, p | l in c.links && j in c.projects && p in c.products && InForce(l, j, p)
          ensures MarketSet(p.allowedMarkets) != {} {
        OneLink(c, d, l, j, p);
      }
    }
    if DefaultsNameMarkets(c) {
      forall r | r in rs && r.Link? ensures LinkOk(d.policy, r) {
        var row := RecordHasRow(rows, r);
        PrintedOnly(c, row);
        var j, p, a := SoundLink(c, row.l);
        OneLink(c, d, row.l, j, p);
      }
    }
  }

  lemma ProjectUnique(c: Config, x: ProjectRow, y: ProjectRow)
    requires UniqueKeys(c) && x in c.projects && y in c.projects && x.projectId == y.projectId
    ensures x == y
  {
  }

  lemma LinkPrinted(c: Config, l: LinkRow, j: ProjectRow, p: ProductRow, a: AccountRow)
    requires AllConform(Rows(c)) && l in c.links && j in c.projects && p in c.products && a in c.accounts
    ensures Id(l.projectId) && Id(l.fundId)
    ensures RecordOf(OfLink(l)) in RecordsOf(Rows(c)) && RecordOf(OfProject(j)) in RecordsOf(Rows(c))
    ensures RecordOf(OfProduct(p)) in RecordsOf(Rows(c)) && RecordOf(OfAccount(a)) in RecordsOf(Rows(c))
  {
    hide Rows, RecordOf, RecordsOf;
    var rows := Rows(c);
    Printed(c);
    RecordPrinted(rows, OfLink(l));
    RecordPrinted(rows, OfProject(j));
    RecordPrinted(rows, OfProduct(p));
    RecordPrinted(rows, OfAccount(a));
    var i :| 0 <= i < |rows| && rows[i] == OfLink(l);
    assert Conforms(rows[i]);
  }

  /** The link of a table, with the project and the product it names. */
  lemma OneLink(c: Config, d: Draft, l: LinkRow, j: ProjectRow, p: ProductRow)
    requires Issues(c) == [] && AllConform(Rows(c)) && UniqueKeys(c) && Mirrors(d, RecordsOf(Rows(c)))
    requires l in c.links && j in c.projects && p in c.products && j.projectId == l.projectId && p.fundId == l.fundId
    ensures RecordOf(OfLink(l)) in RecordsOf(Rows(c))
    ensures RowLinkOk(d.policy, l) <==> (InForce(l, j, p) ==> MarketSet(p.allowedMarkets) != {})
  {
    hide *;
    var j', _, a := SoundLink(c, l);
    ProjectUnique(c, j, j');
    LinkPrinted(c, l, j, p, a);
    LinkOkIff(d, RecordsOf(Rows(c)), l, j, p, a);
  }

  lemma AllListed(c: Config, d: Draft)
    requires Issues(c) == [] && Mirrors(d, RecordsOf(Rows(c)))
    ensures SecuritiesListed(d.policy)
  {
    var rows := Rows(c);
    Printed(c);
    var policy := d.policy;
    hide Rows, Issues;
    forall key | key in policy.securities ensures MarketListed(policy, policy.securities[key]) {
      assert Taken(policy, SecurityKeyed(key));
      var r :| r in RecordsOf(rows) && KeyOf(r) == SecurityKeyed(key);
      var row := RecordHasRow(rows, r);
      PrintedOnly(c, row);
      SoundSecurityRow(c, row.s);
      var m :| m in c.markets && m.marketCode == row.s.marketCode;
      RecordPrinted(rows, OfMarket(m));
      assert Holds(d, r) && Holds(d, RecordOf(OfMarket(m)));
    }
  }

  /** A version without issues prints to a document the core accepts if and only if exchange codes are
      distinct, account statuses are 0 or 1, and every product in force names a market. */
  lemma SilentVersionAcceptedIff(version: int, c: Config)
    requires Id(version) && AllConform(Rows(c)) && UniqueKeys(c) && ColonFreeMarkets(c)
    ensures Issues(c) == [] ==>
      (ParseDocument(Render(version, Rows(c))).Ok?
       <==> DistinctExchanges(c) && BinaryStatuses(c) && DefaultsNameMarkets(c))
  {
    if Issues(c) == [] { SilentAccepted(version, c); }
    hide *;
  }

  lemma SilentAccepted(version: int, c: Config)
    requires Id(version) && AllConform(Rows(c)) && UniqueKeys(c) && ColonFreeMarkets(c) && Issues(c) == []
    ensures ParseDocument(Render(version, Rows(c))).Ok? <==>
      DistinctExchanges(c) && BinaryStatuses(c) && DefaultsNameMarkets(c)
  {
    var rs := RecordsOf(Rows(c));
    RenderThenParse(version, Rows(c));
    ReadableIff(c);
    KeysDistinctIff(c);
    InterpretIff(version, rs);
    hide ParseDocument, Render, Interpret, Issues, Rows, AllReadable;
    if DistinctKeys(rs) {
      var d := AddAllSome(version, rs);
      LinksSoundIff(c, d);
      AllListed(c, d);
    }
  }

  // ---------------------------------------------------------------- markets checked and markets granted

  /** The market names the validator looks up: the non-empty pieces without their outer blanks. */
  function CheckedMarkets(text: string): set<string> {
    set m | m in Fields(text, ',') && Strip(m) != "" :: Strip(m)
  }

  ghost predicate NoOuterBlanks(text: string) {
    forall m :: m in Fields(text, ',') && m != "" ==> Strip(m) == m
  }

  lemma {:induction false} TrimEndTwice(s: string)
    ensures TrimEnd(TrimEnd(s)) == TrimEnd(s)
    ensures TrimEnd(s) <= s
  {
    if s != "" && IsSpace(s[|s| - 1]) { TrimEndTwice(s[..|s| - 1]); }
  }

  lemma {:induction false} SkipSpaceSkips(s: string)
    ensures SkipSpace(s) != "" ==> !IsSpace(SkipSpace(s)[0])
  {
    if s != "" && IsSpace(s[0]) { SkipSpaceSkips(s[1..]); }
  }

  lemma StripTwice(s: string)
    ensures Strip(Strip(s)) == Strip(s)
  {
    hide IsSpace;
    SkipSpaceSkips(s);
    TrimEndTwice(SkipSpace(s));
    if Strip(s) != "" { assert Strip(s)[0] == SkipSpace(s)[0]; }
  }

  /** A product is granted the very markets that were checked exactly when no name has outer blanks. */
  lemma GrantedAreCheckedIff(text: string)
    ensures MarketSet(text) == CheckedMarkets(text) <==> NoOuterBlanks(text)
  {
    hide Fields, Strip;
    if MarketSet(text) == CheckedMarkets(text) {
      forall m | m in Fields(text, ',') && m != "" ensures Strip(m) == m {
        assert m in CheckedMarkets(text);
        var piece :| piece in Fields(text, ',') && m == Strip(piece);
        StripTwice(piece);
      }
    } else if NoOuterBlanks(text) {
      StripTwice("");
      forall m ensures m in MarketSet(text) <==> m in CheckedMarkets(text) {
        if m in MarketSet(text) { assert Strip(m) == m; }
        if m in CheckedMarkets(text) { BlankIsEmpty(); }
      }
    }
  }

  lemma BlankIsEmpty()
    ensures Strip("") == ""
  {
  }

  lemma {:induction false} PartsSilentIff(markets: set<string>, key: string, parts: seq<string>, n: nat)
    requires n <= |parts|
    ensures PartIssues(markets, key, parts, n) == []
            <==> forall i :: 0 <= i < n && Strip(parts[i]) != "" ==> Strip(parts[i]) in markets
  {
    hide Strip;
    if n > 0 { PartsSilentIff(markets, key, parts, n - 1); }
  }

  /** Silence says of a product that every name checked is a market; so is every name granted, without outer blanks. */
  lemma SilentProductMarkets(c: Config, p: ProductRow)
    requires Issues(c) == [] && p in c.products
    ensures CheckedMarkets(p.allowedMarkets) <= MarketCodes(c)
    ensures NoOuterBlanks(p.allowedMarkets) ==> MarketSet(p.allowedMarkets) <= MarketCodes(c)
  {
    var i: nat :| i < |c.products| && c.products[i] == p;
    NoIssues(c, Products, i);
    var parts := Fields(p.allowedMarkets, ',');
    PartsSilentIff(MarketCodes(c), IntText(p.fundId), parts, |parts|);
    hide Strip, Fields, Issues;
    forall m | m in CheckedMarkets(p.allowedMarkets) ensures m in MarketCodes(c) {
      var k :| 0 <= k < |parts| && Strip(parts[k]) == m;
    }
    GrantedAreCheckedIff(p.allowedMarkets);
  }

  // ---------------------------------------------------------------- silent versions the core refuses

  /** Two enabled markets under one exchange code. */
  function SharedExchange(): Config {
    Config([MarketRow("A", "X", true, ""), MarketRow("B", "X", true, "")], [], [], [], [], [], [], [], [])
  }

  /** An account whose status is neither active nor inactive. */
  function OddStatus(): Config {
    Config([MarketRow("A", "X", true, "")], [ColocationRow(1000, "")], [], [], [AccountRow("a", "0", 1000, "2", "")],
           [], [], [], [])
  }

  /** An enabled project whose default link leads to an active product without markets. */
  function NoAllowedMarket(): Config {
    Config([MarketRow("A", "X", true, "")], [ColocationRow(1000, "")], [ProductRow(1, "P", "", "1", "")],
           [ProjectRow(1, 1, true, "")], [AccountRow("a", "0", 1000, "1", "")],
           [LinkRow(1, "a", "0", true, 1, "")], [], [], [])
  }

  lemma RowsSilent(c: Config)
    requires MarketIssues(c) == []
    requires forall pass, i: nat :: i < Size(c, pass) ==> IssuesAt(c, pass, i) == []
    ensures Issues(c) == []
  {
    hide IssuesAt, MarketIssues;
    forall pass ensures PassIssues(c, pass) == [] {
      IssuesToEmpty(c, pass, Size(c, pass));
    }
  }

  lemma SharedExchangeRefused(version: int)
    requires Id(version)
    ensures Issues(SharedExchange()) == [] && ParseDocument(Render(version, Rows(SharedExchange()))).Err?
  {
    var c := SharedExchange();
    hide ParseDocument, Render, Issues, IssuesTo, RecordOf, SharedExchange;
    SharedExchangeRows();
    SharedExchangeSilent();
    RowsSilent(c);
    assert c.markets[0].exchangeCode == c.markets[1].exchangeCode;
    SilentVersionAcceptedIff(version, c);
  }

  lemma SharedExchangeRows()
    ensures var c := SharedExchange();
      && c.markets == [MarketRow("A", "X", true, ""), MarketRow("B", "X", true, "")]
      && AllConform(Rows(c)) && UniqueKeys(c) && ColonFreeMarkets(c)
  {
    var c := SharedExchange();
    assert Rows(c) == [OfMarket(c.markets[0]), OfMarket(c.markets[1])];
  }

  lemma SharedExchangeSilent()
    ensures var c := SharedExchange();
      && MarketIssues(c) == []
      && forall pass, i: nat :: i < Size(c, pass) ==> IssuesAt(c, pass, i) == []
  {
    var c := SharedExchange();
    assert c.markets[0] in c.markets && c.markets[0].enabled;
  }

  lemma OddStatusRefused(version: int)
    requires Id(version)
    ensures Issues(OddStatus()) == [] && ParseDocument(Render(version, Rows(OddStatus()))).Err?
  {
    var c := OddStatus();
    hide ParseDocument, Render, Issues, IssuesTo, RecordOf, OddStatus;
    OddStatusRows();
    OddStatusSilent();
    RowsSilent(c);
    assert c.accounts[0] in c.accounts;
    SilentVersionAcceptedIff(version, c);
  }

  lemma OddStatusRows()
    ensures var c := OddStatus();
      && c.accounts == [AccountRow("a", "0", 1000, "2", "")]
      && AllConform(Rows(c)) && UniqueKeys(c) && ColonFreeMarkets(c)
  {
    var c := OddStatus();
    assert Rows(c) == [OfMarket(c.markets[0]), OfAccount(c.accounts[0])];
  }

  lemma OddStatusSilent()
    ensures var c := OddStatus();
      && MarketIssues(c) == []
      && forall pass, i: nat :: i < Size(c, pass) ==> IssuesAt(c, pass, i) == []
  {
    var c := OddStatus();
    assert c.markets[0] in c.markets && c.colocations[0] in c.colocations;
  }

  lemma NoAllowedMarketRefused(version: int)
    requires Id(version)
    ensures Issues(NoAllowedMarket()) == [] && ParseDocument(Render(version, Rows(NoAllowedMarket()))).Err?
  {
    var c := NoAllowedMarket();
    var l, j, p := c.links[0], c.projects[0], c.products[0];
    assert l in c.links && j in c.projects && p in c.products;
    assert InForce(l, j, p) && MarketSet(p.allowedMarkets) == {};
    hide ParseDocument, Render, Issues, IssuesTo, RecordOf, NoAllowedMarket, MarketSet, InForce;
    NoAllowedMarketRows();
    NoAllowedMarketSilent();
    RowsSilent(c);
    SilentVersionAcceptedIff(version, c);
  }

  lemma NoAllowedMarketRows()
    ensures var c := NoAllowedMarket(); AllConform(Rows(c)) && UniqueKeys(c) && ColonFreeMarkets(c)
  {
    var c := NoAllowedMarket();
    assert Rows(c) == [OfMarket(c.markets[0]), OfProduct(c.products[0]), OfProject(c.projects[0]),
                       OfAccount(c.accounts[0]), OfLink(c.links[0])];
  }

  lemma NoAllowedMarketSilent()
    ensures var c := NoAllowedMarket();
      && MarketIssues(c) == []
      && forall pass, i: nat :: i < Size(c, pass) ==> IssuesAt(c, pass, i) == []
  {
    var c := NoAllowedMarket();
    hide IntText;
    assert c.markets[0] in c.markets && c.colocations[0] in c.colocations && c.products[0] in c.products;
    assert FindProject(c.projects, 1) == Some(c.projects[0]) && FindAccount(c.accounts, "a") == Some(c.accounts[0]);
    assert c.links[0].defaultFlag;
    assert Fields(c.products[0].allowedMarkets, ',') == [""] && Strip("") == "";
    assert PartIssues(MarketCodes(c), IntText(1), [""], 0) == PartIssues(MarketCodes(c), IntText(1), [""], 1) == [];
    assert IssuesAt(c, Products, 0) == [];
    assert IssuesAt(c, Links, 0) == [];
    assert IssuesAt(c, Coverage, 0) == [];
  }
}

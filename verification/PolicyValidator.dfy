/** The control plane's validator, and what it does and does not guarantee about the printed document. */
module PolicyValidator {
  import opened Wrappers
  import opened Text
  import opened PolicyConfig

  datatype Problem =
    | NoMarket | NoEnabledMarket | MarketMissing(code: string) | ProductMissing(fundId: int) | ColoMissing(coloId: int)
    | ProjectMissing(projectId: int) | FundMismatch | AccountMissing(accountId: string) | TypeMismatch
    | DuplicateDefault | NoDefaultLink | MinAboveMax | FuturesProductMissing(code: string)

  datatype Issue = Issue(resource: string, entityKey: string, problem: Problem)

  // ---------------------------------------------------------------- the checks

  function MarketCodes(c: Config): set<string> { set m | m in c.markets :: m.marketCode }

  function FundIds(c: Config): set<int> { set p | p in c.products :: p.fundId }

  function ColoIds(c: Config): set<int> { set x | x in c.colocations :: x.coloId }

  function FuturesKeys(c: Config): set<(string, string)> {
    set p | p in c.futuresProducts :: (p.marketCode, p.productCode)
  }

  function FindProject(rows: seq<ProjectRow>, id: int): (r: Option<ProjectRow>)
    ensures r.Some? ==> r.value in rows && r.value.projectId == id
    ensures r.None? ==> forall p :: p in rows ==> p.projectId != id
  {
    if rows == [] then None else if rows[0].projectId == id then Some(rows[0]) else FindProject(rows[1..], id)
  }

  function FindAccount(rows: seq<AccountRow>, id: string): (r: Option<AccountRow>)
    ensures r.Some? ==> r.value in rows && r.value.accountId == id
    ensures r.None? ==> forall a :: a in rows ==> a.accountId != id
  {
    if rows == [] then None else if rows[0].accountId == id then Some(rows[0]) else FindAccount(rows[1..], id)
  }

  function TrimEnd(s: string): string {
    if s != "" && IsSpace(s[|s| - 1]) then TrimEnd(s[..|s| - 1]) else s
  }

  function Strip(s: string): string { TrimEnd(SkipSpace(s)) }

  /** The unknown names among the first `n` pieces of a product's market list. */
  function PartIssues(markets: set<string>, key: string, parts: seq<string>, n: nat): seq<Issue>
    requires n <= |parts|
  {
    if n == 0 then []
    else
      var market := Strip(parts[n - 1]);
      PartIssues(markets, key, parts, n - 1)
      + (if market != "" && market !in markets then [Issue("products", key, MarketMissing(market))] else [])
  }

  /** One of the first `n` links is the default of this project and account type. */
  predicate DefaultAmong(c: Config, n: nat, projectId: int, accountType: string)
    requires n <= |c.links|
  {
    exists k | 0 <= k < n ::
        c.links[k].defaultFlag && c.links[k].projectId == projectId && c.links[k].accountType == accountType
  }

  function LinkProjectIssues(c: Config, l: LinkRow, key: string): seq<Issue> {
    match FindProject(c.projects, l.projectId)
    case None => [Issue("account-links", key, ProjectMissing(l.projectId))]
    case Some(p) => if p.fundId != l.fundId then [Issue("account-links", key, FundMismatch)] else []
  }

  function LinkAccountIssues(c: Config, l: LinkRow, key: string): seq<Issue> {
    match FindAccount(c.accounts, l.accountId)
    case None => [Issue("account-links", key, AccountMissing(l.accountId))]
    case Some(a) => if a.accountType != l.accountType then [Issue("account-links", key, TypeMismatch)] else []
  }

  function LinkIssues(c: Config, i: nat): seq<Issue>
    requires i < |c.links|
  {
    var l := c.links[i];
    var key := IntText(l.projectId) + ":" + l.accountId + ":" + l.accountType;
    LinkProjectIssues(c, l, key)
    + (if l.fundId !in FundIds(c) then [Issue("account-links", key, ProductMissing(l.fundId))] else [])
    + LinkAccountIssues(c, l, key)
    + (if l.defaultFlag && DefaultAmong(c, i, l.projectId, l.accountType)
       then [Issue("account-links", key, DuplicateDefault)] else [])
  }

  function SecurityIssues(c: Config, s: SecurityRow): seq<Issue> {
    var key := s.marketCode + ":" + s.symbol;
    (if s.marketCode !in MarketCodes(c) then [Issue("securities", key, MarketMissing(s.marketCode))] else [])
    + (if s.minQuantity != 0 && s.maxQuantity != 0 && s.minQuantity > s.maxQuantity
       then [Issue("securities", key, MinAboveMax)] else [])
  }

  function ContractIssues(c: Config, f: FuturesContractRow): seq<Issue> {
    var key := f.marketCode + ":" + f.symbol;
    (if f.marketCode !in MarketCodes(c) then [Issue("futures-contracts", key, MarketMissing(f.marketCode))] else [])
    + (if (f.marketCode, f.productCode) !in FuturesKeys(c)
       then [Issue("futures-contracts", key, FuturesProductMissing(f.productCode))] else [])
  }

  function MarketIssues(c: Config): seq<Issue> {
    if c.markets == [] then [Issue("markets", "*", NoMarket)]
    else if !exists m | m in c.markets :: m.enabled then [Issue("markets", "*", NoEnabledMarket)]
    else []
  }

  predicate LinkedAmong(c: Config, n: nat, projectId: int)
    requires n <= |c.links|
  {
    exists k | 0 <= k < n :: c.links[k].defaultFlag && c.links[k].projectId == projectId
  }

  predicate HasDefaultLink(c: Config, projectId: int) { LinkedAmong(c, |c.links|, projectId) }

  /** The passes over the tables, in their order. */
  datatype Pass = Products | Projects | Accounts | Links | Coverage | Securities | Contracts | FuturesProducts

  function Size(c: Config, pass: Pass): nat {
    match pass
    case Products => |c.products|
    case Projects => |c.projects|
    case Accounts => |c.accounts|
    case Links => |c.links|
    case Coverage => |c.projects|
    case Securities => |c.securities|
    case Contracts => |c.futuresContracts|
    case FuturesProducts => |c.futuresProducts|
  }

  /** What one row of a pass contributes. */
  function IssuesAt(c: Config, pass: Pass, i: nat): seq<Issue>
    requires i < Size(c, pass)
  {
    match pass
    case Products =>
      var parts := Fields(c.products[i].allowedMarkets, ',');
      PartIssues(MarketCodes(c), IntText(c.products[i].fundId), parts, |parts|)
    case Projects =>
      if c.projects[i].fundId !in FundIds(c)
      then [Issue("projects", IntText(c.projects[i].projectId), ProductMissing(c.projects[i].fundId))] else []
    case Accounts =>
      if c.accounts[i].coloId !in ColoIds(c)
      then [Issue("accounts", c.accounts[i].accountId, ColoMissing(c.accounts[i].coloId))] else []
    case Links => LinkIssues(c, i)
    case Coverage =>
      if c.projects[i].enabled && !HasDefaultLink(c, c.projects[i].projectId)
      then [Issue("projects", IntText(c.projects[i].projectId), NoDefaultLink)] else []
    case Securities => SecurityIssues(c, c.securities[i])
    case Contracts => ContractIssues(c, c.futuresContracts[i])
    case FuturesProducts =>
      var f := c.futuresProducts[i];
      if f.marketCode !in MarketCodes(c)
      then [Issue("futures-products", f.marketCode + ":" + f.productCode, MarketMissing(f.marketCode))] else []
  }

  function IssuesTo(c: Config, pass: Pass, n: nat): seq<Issue>
    requires n <= Size(c, pass)
  {
    if n == 0 then [] else IssuesTo(c, pass, n - 1) + IssuesAt(c, pass, n - 1)
  }

  lemma {:induction false} IssuesToEmpty(c: Config, pass: Pass, n: nat)
    requires n <= Size(c, pass)
    ensures IssuesTo(c, pass, n) == [] <==> forall i: nat :: i < n ==> IssuesAt(c, pass, i) == []
  {
    hide IssuesAt;
    if n > 0 { IssuesToEmpty(c, pass, n - 1); }
  }

  function PassIssues(c: Config, pass: Pass): seq<Issue> {
    IssuesTo(c, pass, Size(c, pass))
  }

  function Issues(c: Config): seq<Issue> {
    MarketIssues(c) + PassIssues(c, Products) + PassIssues(c, Projects) + PassIssues(c, Accounts) + PassIssues(c, Links)
    + PassIssues(c, Coverage) + PassIssues(c, Securities) + PassIssues(c, Contracts) + PassIssues(c, FuturesProducts)
  }

  // ---------------------------------------------------------------- the loops

  method CheckProduct(c: Config, product: ProductRow) returns (issues: seq<Issue>)
    ensures var parts := Fields(product.allowedMarkets, ',');
      issues == PartIssues(MarketCodes(c), IntText(product.fundId), parts, |parts|)
  {
    issues := [];
    var parts := Split(product.allowedMarkets, ',');
    for i := 0 to |parts|
      invariant issues == PartIssues(MarketCodes(c), IntText(product.fundId), parts, i)
    {
      var market := Strip(parts[i]);
      if market != "" && market !in MarketCodes(c) {
        issues := issues + [Issue("products", IntText(product.fundId), MarketMissing(market))];
      }
    }
  }

  method CheckProducts(c: Config) returns (issues: seq<Issue>)
    ensures issues == PassIssues(c, Products)
  {
    hide PartIssues, Fields, MarketCodes, IntText;
    issues := [];
    for i := 0 to |c.products|
      invariant issues == IssuesTo(c, Products, i)
    {
      var found := CheckProduct(c, c.products[i]);
      assert found == IssuesAt(c, Products, i);
      issues := issues + found;
    }
  }

  method CheckProjects(c: Config) returns (issues: seq<Issue>)
    ensures issues == PassIssues(c, Projects)
  {
    issues := [];
    for i := 0 to |c.projects|
      invariant issues == IssuesTo(c, Projects, i)
    {
      if c.projects[i].fundId !in FundIds(c) {
        issues := issues + [Issue("projects", IntText(c.projects[i].projectId), ProductMissing(c.projects[i].fundId))];
      }
    }
  }

  method CheckAccounts(c: Config) returns (issues: seq<Issue>)
    ensures issues == PassIssues(c, Accounts)
  {
    issues := [];
    for i := 0 to |c.accounts|
      invariant issues == IssuesTo(c, Accounts, i)
    {
      if c.accounts[i].coloId !in ColoIds(c) {
        issues := issues + [Issue("accounts", c.accounts[i].accountId, ColoMissing(c.accounts[i].coloId))];
      }
    }
  }

  /** One link, given the default keys met before it. */
  method CheckLink(c: Config, i: nat, defaultLinks: set<(int, string)>) returns (issues: seq<Issue>)
    requires i < |c.links|
    requires (c.links[i].projectId, c.links[i].accountType) in defaultLinks
             <==> DefaultAmong(c, i, c.links[i].projectId, c.links[i].accountType)
    ensures issues == LinkIssues(c, i)
  {
    hide DefaultAmong, FindProject, FindAccount, FundIds, IntText;
    issues := [];
    var link := c.links[i];
    var key := IntText(link.projectId) + ":" + link.accountId + ":" + link.accountType;
    var project := FindProject(c.projects, link.projectId);
    if project.None? {
      issues := issues + [Issue("account-links", key, ProjectMissing(link.projectId))];
    } else if project.value.fundId != link.fundId {
      issues := issues + [Issue("account-links", key, FundMismatch)];
    }
    assert issues == LinkProjectIssues(c, link, key);
    if link.fundId !in FundIds(c) {
      issues := issues + [Issue("account-links", key, ProductMissing(link.fundId))];
    }
    ghost var before := issues;
    var account := FindAccount(c.accounts, link.accountId);
    if account.None? {
      issues := issues + [Issue("account-links", key, AccountMissing(link.accountId))];
    } else if account.value.accountType != link.accountType {
      issues := issues + [Issue("account-links", key, TypeMismatch)];
    }
    assert issues == before + LinkAccountIssues(c, link, key);
    if link.defaultFlag && (link.projectId, link.accountType) in defaultLinks {
      issues := issues + [Issue("account-links", key, DuplicateDefault)];
    }
  }

  lemma DefaultAmongNext(c: Config, i: nat, p: int, t: string)
    requires i < |c.links|
    ensures DefaultAmong(c, i + 1, p, t) <==>
      DefaultAmong(c, i, p, t) || (c.links[i].defaultFlag && (c.links[i].projectId, c.links[i].accountType) == (p, t))
    ensures LinkedAmong(c, i + 1, p) <==> LinkedAmong(c, i, p) || (c.links[i].defaultFlag && c.links[i].projectId == p)
  {
  }

  /** The pass over the links, with the two sets it fills. */
  method CheckLinks(c: Config) returns (issues: seq<Issue>, linkedProjects: set<int>)
    ensures issues == PassIssues(c, Links)
    ensures forall p :: p in linkedProjects <==> HasDefaultLink(c, p)
  {
    issues, linkedProjects := [], {};
    var defaultLinks: set<(int, string)> := {};
    for i := 0 to |c.links|
      invariant issues == IssuesTo(c, Links, i)
      invariant forall p, t :: (p, t) in defaultLinks <==> DefaultAmong(c, i, p, t)
      invariant forall p :: p in linkedProjects <==> LinkedAmong(c, i, p)
    {
      var found := CheckLink(c, i, defaultLinks);
      issues := issues + found;
      forall p, t ensures DefaultAmong(c, i + 1, p, t) <==>
          DefaultAmong(c, i, p, t)
              || (c.links[i].defaultFlag && (c.links[i].projectId, c.links[i].accountType) == (p, t))
      {
        DefaultAmongNext(c, i, p, t);
      }
      forall p ensures LinkedAmong(c, i + 1, p)
          <==> LinkedAmong(c, i, p) || (c.links[i].defaultFlag && c.links[i].projectId == p) {
        DefaultAmongNext(c, i, p, "");
      }
      if c.links[i].defaultFlag {
        defaultLinks := defaultLinks + {(c.links[i].projectId, c.links[i].accountType)};
        linkedProjects := linkedProjects + {c.links[i].projectId};
      }
    }
  }

  method CheckCoverage(c: Config, linkedProjects: set<int>) returns (issues: seq<Issue>)
    requires forall p :: p in linkedProjects <==> HasDefaultLink(c, p)
    ensures issues == PassIssues(c, Coverage)
  {
    issues := [];
    for i := 0 to |c.projects|
      invariant issues == IssuesTo(c, Coverage, i)
    {
      if c.projects[i].enabled && c.projects[i].projectId !in linkedProjects {
        assert !HasDefaultLink(c, c.projects[i].projectId);
        issues := issues + [Issue("projects", IntText(c.projects[i].projectId), NoDefaultLink)];
      }
    }
  }

  /** The passes over securities, contracts and futures products. */
  method CheckInstruments(c: Config, pass: Pass) returns (issues: seq<Issue>)
    requires pass in {Securities, Contracts, FuturesProducts}
    ensures issues == PassIssues(c, pass)
  {
    issues := [];
    for i := 0 to Size(c, pass)
      invariant issues == IssuesTo(c, pass, i)
    {
      issues := issues + IssuesAt(c, pass, i);
    }
  }

  /** The whole check. */
  method ValidationIssues(c: Config) returns (issues: seq<Issue>)
    ensures issues == Issues(c)
  {
    var products := CheckProducts(c);
    var projects := CheckProjects(c);
    var accounts := CheckAccounts(c);
    var links, linkedProjects := CheckLinks(c);
    var coverage := CheckCoverage(c, linkedProjects);
    var securities := CheckInstruments(c, Securities);
    var contracts := CheckInstruments(c, Contracts);
    var futuresProducts := CheckInstruments(c, FuturesProducts);
    issues := MarketIssues(c) + products + projects + accounts + links + coverage + securities + contracts
        + futuresProducts;
  }
}

/** What the validator's silence means, table by table. */
module PolicyIntegrity {
  import opened Text
  import opened TextNumbers
  import opened PolicyConfig
  import opened PolicyValidator
  import opened PolicyAcceptance

  ghost predicate HasMarket(c: Config, code: string) { exists m :: m in c.markets && m.marketCode == code }

  ghost predicate HasProduct(c: Config, fundId: int) { exists p :: p in c.products && p.fundId == fundId }

  ghost predicate HasColocation(c: Config, coloId: int) {
    exists x :: x in c.colocations && x.coloId == coloId
  }

  ghost predicate HasFuturesProduct(c: Config, marketCode: string, productCode: string) {
    exists f :: f in c.futuresProducts && f.marketCode == marketCode && f.productCode == productCode
  }

  ghost predicate OpenMarket(c: Config) { exists m :: m in c.markets && m.enabled }

  /** Every market a product names, outer blanks aside, exists. */
  ghost predicate ProductsNameMarkets(c: Config) {
    forall p, piece :: p in c.products && piece in Fields(p.allowedMarkets, ',') && Strip(piece) != "" ==>
        HasMarket(c, Strip(piece))
  }

  ghost predicate ProjectsHaveProducts(c: Config) { forall j :: j in c.projects ==> HasProduct(c, j.fundId) }

  ghost predicate AccountsAreColocated(c: Config) {
    forall a :: a in c.accounts ==> HasColocation(c, a.coloId)
  }

  /** A link's project and account exist and agree with it, and so does its product. */
  ghost predicate LinkFits(c: Config, l: LinkRow) {
    && (exists j :: j in c.projects && j.projectId == l.projectId && j.fundId == l.fundId)
    && HasProduct(c, l.fundId)
    && (exists a :: a in c.accounts && a.accountId == l.accountId && a.accountType == l.accountType)
  }

  ghost predicate LinksFit(c: Config) { forall l :: l in c.links ==> LinkFits(c, l) }

  /** A project has at most one default link of each account type. */
  ghost predicate OneDefault(c: Config) {
    forall i, j :: 0 <= i < j < |c.links| && c.links[i].defaultFlag && c.links[j].defaultFlag ==>
        c.links[i].projectId != c.links[j].projectId || c.links[i].accountType != c.links[j].accountType
  }

  ghost predicate IsLinked(c: Config, projectId: int) {
    exists l :: l in c.links && l.defaultFlag && l.projectId == projectId
  }

  ghost predicate ProjectsAreLinked(c: Config) {
    forall j :: j in c.projects && j.enabled ==> IsLinked(c, j.projectId)
  }

  ghost predicate SecuritiesFit(c: Config) {
    forall s :: s in c.securities ==>
        HasMarket(c, s.marketCode) && (s.minQuantity == 0 || s.maxQuantity == 0 || s.minQuantity <= s.maxQuantity)
  }

  ghost predicate ContractsFit(c: Config) {
    forall t :: t in c.futuresContracts ==>
        HasMarket(c, t.marketCode) && HasFuturesProduct(c, t.marketCode, t.productCode)
  }

  ghost predicate FuturesProductsFit(c: Config) {
    forall f :: f in c.futuresProducts ==> HasMarket(c, f.marketCode)
  }

  ghost predicate PassFits(c: Config, pass: Pass) {
    match pass
    case Products => ProductsNameMarkets(c)
    case Projects => ProjectsHaveProducts(c)
    case Accounts => AccountsAreColocated(c)
    case Links => LinksFit(c) && OneDefault(c)
    case Coverage => ProjectsAreLinked(c)
    case Securities => SecuritiesFit(c)
    case Contracts => ContractsFit(c)
    case FuturesProducts => FuturesProductsFit(c)
  }

  // ---------------------------------------------------------------- outer blanks

  lemma {:induction false} TrimEndCuts(s: string) returns (blanks: string)
    ensures AllSpace(blanks) && s == TrimEnd(s) + blanks
    ensures TrimEnd(s) != "" ==> !IsSpace(TrimEnd(s)[|TrimEnd(s)| - 1])
  {
    hide IsSpace;
    blanks := "";
    if s != "" && IsSpace(s[|s| - 1]) {
      var front := s[..|s| - 1];
      blanks := TrimEndCuts(front);
      blanks := blanks + [s[|s| - 1]];
      assert s == front + [s[|s| - 1]];
    }
  }

  /** A stripped name is the name between its outer blanks, and has none itself. */
  lemma StripCuts(s: string) returns (before: string, after: string)
    ensures AllSpace(before) && AllSpace(after) && s == before + Strip(s) + after
    ensures Strip(s) != "" ==> !IsSpace(Strip(s)[0]) && !IsSpace(Strip(s)[|Strip(s)| - 1])
  {
    hide IsSpace, AllSpace, SkipSpace, TrimEnd;
    before := BlanksBefore(s);
    after := TrimEndCuts(SkipSpace(s));
    Regrouped(before, Strip(s), after);
    if Strip(s) != "" { assert (Strip(s) + after)[0] == Strip(s)[0]; }
  }

  lemma Regrouped(a: string, b: string, c: string)
    ensures a + (b + c) == a + b + c
  {
  }

  // ---------------------------------------------------------------- row by row

  lemma Codes(c: Config)
    ensures forall code :: code in MarketCodes(c) <==> HasMarket(c, code)
    ensures forall id :: id in FundIds(c) <==> HasProduct(c, id)
    ensures forall id :: id in ColoIds(c) <==> HasColocation(c, id)
    ensures forall m, p :: (m, p) in FuturesKeys(c) <==> HasFuturesProduct(c, m, p)
  {
  }

  lemma ProductSilentIff(c: Config, i: nat)
    requires i < |c.products|
    ensures IssuesAt(c, Products, i) == [] <==> forall piece ::
        piece in Fields(c.products[i].allowedMarkets, ',') && Strip(piece) != "" ==> HasMarket(c, Strip(piece))
  {
    hide Strip, Fields, HasMarket;
    var parts := Fields(c.products[i].allowedMarkets, ',');
    Codes(c);
    PartsSilentIff(MarketCodes(c), IntText(c.products[i].fundId), parts, |parts|);
  }

  lemma FoundProject(c: Config, l: LinkRow)
    requires UniqueKeys(c)
    ensures (FindProject(c.projects, l.projectId).Some?
             && FindProject(c.projects, l.projectId).value.fundId == l.fundId)
        <==> exists j :: j in c.projects && j.projectId == l.projectId && j.fundId == l.fundId
  {
    if j :| j in c.projects && j.projectId == l.projectId && j.fundId == l.fundId {
      ProjectUnique(c, j, FindProject(c.projects, l.projectId).value);
    }
  }

  lemma FoundAccount(c: Config, l: LinkRow)
    requires UniqueKeys(c)
    ensures (FindAccount(c.accounts, l.accountId).Some?
             && FindAccount(c.accounts, l.accountId).value.accountType == l.accountType)
        <==> exists a :: a in c.accounts && a.accountId == l.accountId && a.accountType == l.accountType
  {
    if a :| a in c.accounts && a.accountId == l.accountId && a.accountType == l.accountType {
      AccountUnique(c, a, FindAccount(c.accounts, l.accountId).value);
    }
  }

  lemma AccountUnique(c: Config, x: AccountRow, y: AccountRow)
    requires UniqueKeys(c) && x in c.accounts && y in c.accounts && x.accountId == y.accountId
    ensures x == y
  {
  }

  lemma LinkSilentIff(c: Config, i: nat)
    requires UniqueKeys(c) && i < |c.links|
    ensures IssuesAt(c, Links, i) == [] <==>
        LinkFits(c, c.links[i]) && !(c.links[i].defaultFlag
            && DefaultAmong(c, i, c.links[i].projectId, c.links[i].accountType))
  {
    FoundProject(c, c.links[i]);
    FoundAccount(c, c.links[i]);
    Codes(c);
    hide FindProject, FindAccount, FundIds, HasProduct, DefaultAmong, UniqueKeys, IntText;
  }

  lemma NoneTwiceIff(c: Config)
    ensures OneDefault(c) <==> forall i: nat :: i < |c.links| ==>
        !(c.links[i].defaultFlag && DefaultAmong(c, i, c.links[i].projectId, c.links[i].accountType))
  {
  }

  lemma LinksSilentIff(c: Config)
    requires UniqueKeys(c)
    ensures (forall i: nat :: i < |c.links| ==> IssuesAt(c, Links, i) == []) <==> LinksFit(c) && OneDefault(c)
  {
    hide IssuesAt, LinkFits, DefaultAmong, OneDefault, UniqueKeys;
    forall i: nat | i < |c.links|
      ensures IssuesAt(c, Links, i) == [] <==>
        LinkFits(c, c.links[i]) && !(c.links[i].defaultFlag
            && DefaultAmong(c, i, c.links[i].projectId, c.links[i].accountType))
    {
      LinkSilentIff(c, i);
    }
    NoneTwiceIff(c);
    assert LinksFit(c) <==> forall i: nat :: i < |c.links| ==> LinkFits(c, c.links[i]);
  }

  lemma LinkedIff(c: Config, projectId: int)
    ensures HasDefaultLink(c, projectId) <==> IsLinked(c, projectId)
  {
    if l :| l in c.links && l.defaultFlag && l.projectId == projectId {
      var k :| 0 <= k < |c.links| && c.links[k] == l;
    }
  }

  /** What one row of the simple passes must satisfy. */
  ghost predicate RowFits(c: Config, pass: Pass, i: nat)
    requires i < Size(c, pass) && pass != Products && pass != Links
  {
    match pass
    case Projects => HasProduct(c, c.projects[i].fundId)
    case Accounts => HasColocation(c, c.accounts[i].coloId)
    case Coverage => c.projects[i].enabled ==> IsLinked(c, c.projects[i].projectId)
    case Securities =>
      var s := c.securities[i];
      HasMarket(c, s.marketCode) && (s.minQuantity == 0 || s.maxQuantity == 0 || s.minQuantity <= s.maxQuantity)
    case Contracts =>
      var t := c.futuresContracts[i];
      HasMarket(c, t.marketCode) && HasFuturesProduct(c, t.marketCode, t.productCode)
    case FuturesProducts => HasMarket(c, c.futuresProducts[i].marketCode)
  }

  lemma RowSilentIff(c: Config, pass: Pass, i: nat)
    requires i < Size(c, pass) && pass != Products && pass != Links
    ensures IssuesAt(c, pass, i) == [] <==> RowFits(c, pass, i)
  {
    hide HasMarket, HasProduct, HasColocation, HasFuturesProduct, IsLinked, HasDefaultLink, IntText;
    hide MarketCodes, FundIds, ColoIds, FuturesKeys;
    Codes(c);
    if pass == Coverage { LinkedIff(c, c.projects[i].projectId); }
  }

  lemma RowsFitIff(c: Config, pass: Pass)
    requires pass != Products && pass != Links
    ensures (forall i: nat :: i < Size(c, pass) ==> RowFits(c, pass, i)) <==> PassFits(c, pass)
  {
    hide HasMarket, HasProduct, HasColocation, HasFuturesProduct, IsLinked;
    if forall i: nat :: i < Size(c, pass) ==> RowFits(c, pass, i) {
      match pass
      case Projects =>
        forall j | j in c.projects ensures HasProduct(c, j.fundId) {
          var i: nat :| i < |c.projects| && c.projects[i] == j;
          assert RowFits(c, pass, i);
        }
      case Accounts =>
        forall a | a in c.accounts ensures HasColocation(c, a.coloId) {
          var i: nat :| i < |c.accounts| && c.accounts[i] == a;
          assert RowFits(c, pass, i);
        }
      case Coverage =>
        forall j | j in c.projects && j.enabled ensures IsLinked(c, j.projectId) {
          var i: nat :| i < |c.projects| && c.projects[i] == j;
          assert RowFits(c, pass, i);
        }
      case Securities =>
        forall s | s in c.securities ensures
            HasMarket(c, s.marketCode) && (s.minQuantity == 0 || s.maxQuantity == 0 || s.minQuantity <= s.maxQuantity)
        {
          var i: nat :| i < |c.securities| && c.securities[i] == s;
          assert RowFits(c, pass, i);
        }
      case Contracts =>
        forall t | t in c.futuresContracts
          ensures HasMarket(c, t.marketCode) && HasFuturesProduct(c, t.marketCode, t.productCode)
        {
          var i: nat :| i < |c.futuresContracts| && c.futuresContracts[i] == t;
          assert RowFits(c, pass, i);
        }
      case FuturesProducts =>
        forall f | f in c.futuresProducts ensures HasMarket(c, f.marketCode) {
          var i: nat :| i < |c.futuresProducts| && c.futuresProducts[i] == f;
          assert RowFits(c, pass, i);
        }
    }
  }

  lemma RowsSilentIff(c: Config, pass: Pass)
    requires pass != Products && pass != Links
    ensures (forall i: nat :: i < Size(c, pass) ==> IssuesAt(c, pass, i) == []) <==> PassFits(c, pass)
  {
    RowsFitIff(c, pass);
    hide IssuesAt, RowFits, PassFits;
    forall i: nat | i < Size(c, pass) ensures IssuesAt(c, pass, i) == [] <==> RowFits(c, pass, i) {
      RowSilentIff(c, pass, i);
    }
  }

  lemma ProductsSilentIff(c: Config)
    ensures (forall i: nat :: i < |c.products| ==> IssuesAt(c, Products, i) == []) <==> ProductsNameMarkets(c)
  {
    hide IssuesAt, Strip, Fields, HasMarket;
    forall i: nat | i < |c.products|
      ensures IssuesAt(c, Products, i) == [] <==> forall piece ::
        piece in Fields(c.products[i].allowedMarkets, ',') && Strip(piece) != "" ==> HasMarket(c, Strip(piece))
    {
      ProductSilentIff(c, i);
    }
  }

  /** A pass is silent exactly when its tables fit together. */
  lemma PassSilentIff(c: Config, pass: Pass)
    requires UniqueKeys(c)
    ensures PassIssues(c, pass) == [] <==> PassFits(c, pass)
  {
    hide UniqueKeys, IssuesAt, ProductsNameMarkets, LinksFit, OneDefault;
    IssuesToEmpty(c, pass, Size(c, pass));
    if pass == Products {
      ProductsSilentIff(c);
    } else if pass == Links {
      LinksSilentIff(c);
    } else {
      RowsSilentIff(c, pass);
    }
  }

  /** A version has no issues if and only if some market is enabled and every table fits the others. */
  lemma SilentIff(c: Config)
    requires UniqueKeys(c)
    ensures Issues(c) == [] <==>
        && OpenMarket(c) && ProductsNameMarkets(c) && ProjectsHaveProducts(c) && AccountsAreColocated(c)
        && LinksFit(c) && OneDefault(c) && ProjectsAreLinked(c)
        && SecuritiesFit(c) && ContractsFit(c) && FuturesProductsFit(c)
  {
    hide UniqueKeys, PassIssues;
    hide ProductsNameMarkets, ProjectsHaveProducts, AccountsAreColocated, LinksFit, OneDefault, ProjectsAreLinked,
        SecuritiesFit, ContractsFit, FuturesProductsFit;
    PassSilentIff(c, Products);
    PassSilentIff(c, Projects);
    PassSilentIff(c, Accounts);
    PassSilentIff(c, Links);
    PassSilentIff(c, Coverage);
    PassSilentIff(c, Securities);
    PassSilentIff(c, Contracts);
    PassSilentIff(c, FuturesProducts);
  }

  // ---------------------------------------------------------------- what an issue says

  /** The table and key under which a row's issues are reported. */
  function RowName(c: Config, pass: Pass, i: nat): (string, string)
    requires i < Size(c, pass)
  {
    match pass
    case Products => ("products", IntText(c.products[i].fundId))
    case Projects => ("projects", IntText(c.projects[i].projectId))
    case Accounts => ("accounts", c.accounts[i].accountId)
    case Links =>
      var l := c.links[i];
      ("account-links", IntText(l.projectId) + ":" + l.accountId + ":" + l.accountType)
    case Coverage => ("projects", IntText(c.projects[i].projectId))
    case Securities => ("securities", c.securities[i].marketCode + ":" + c.securities[i].symbol)
    case Contracts => ("futures-contracts", c.futuresContracts[i].marketCode + ":" + c.futuresContracts[i].symbol)
    case FuturesProducts =>
      ("futures-products", c.futuresProducts[i].marketCode + ":" + c.futuresProducts[i].productCode)
  }

  /** What a problem says of the row it is reported for. */
  ghost predicate IsTrue(c: Config, pass: Pass, i: nat, problem: Problem)
    requires i < Size(c, pass)
  {
    match problem
    case NoMarket => false
    case NoEnabledMarket => false
    case MarketMissing(code) =>
      !HasMarket(c, code) && (
        match pass
        case Products => exists piece :: piece in Fields(c.products[i].allowedMarkets, ',') && Strip(piece) == code
        case Securities => c.securities[i].marketCode == code
        case Contracts => c.futuresContracts[i].marketCode == code
        case FuturesProducts => c.futuresProducts[i].marketCode == code
        case _ => false)
    case ProductMissing(fundId) =>
      !HasProduct(c, fundId)
      && ((pass == Projects && c.projects[i].fundId == fundId) || (pass == Links && c.links[i].fundId == fundId))
    case ColoMissing(coloId) => !HasColocation(c, coloId) && pass == Accounts && c.accounts[i].coloId == coloId
    case ProjectMissing(projectId) =>
      pass == Links && c.links[i].projectId == projectId && forall j :: j in c.projects ==> j.projectId != projectId
    case FundMismatch =>
      pass == Links
      && exists j :: j in c.projects && j.projectId == c.links[i].projectId && j.fundId != c.links[i].fundId
    case AccountMissing(accountId) =>
      pass == Links && c.links[i].accountId == accountId && forall a :: a in c.accounts ==> a.accountId != accountId
    case TypeMismatch =>
      pass == Links
      && exists a :: a in c.accounts && a.accountId == c.links[i].accountId && a.accountType != c.links[i].accountType
    case DuplicateDefault => pass == Links && IsSecondDefault(c, i)
    case NoDefaultLink => pass == Coverage && c.projects[i].enabled && !IsLinked(c, c.projects[i].projectId)
    case MinAboveMax =>
      pass == Securities && c.securities[i].minQuantity != 0 && c.securities[i].maxQuantity != 0
      && c.securities[i].minQuantity > c.securities[i].maxQuantity
    case FuturesProductMissing(code) =>
      pass == Contracts && c.futuresContracts[i].productCode == code
      && !HasFuturesProduct(c, c.futuresContracts[i].marketCode, code)
  }

  ghost predicate IsSecondDefault(c: Config, i: nat)
    requires i < |c.links|
  {
    && c.links[i].defaultFlag
    && exists k :: 0 <= k < i && c.links[k].defaultFlag && c.links[k].projectId == c.links[i].projectId
                   && c.links[k].accountType == c.links[i].accountType
  }

  /** The row's own issue. */
  ghost predicate Names(c: Config, pass: Pass, i: nat, x: Issue)
    requires i < Size(c, pass)
  {
    (x.resource, x.entityKey) == RowName(c, pass, i) && IsTrue(c, pass, i, x.problem)
  }

  lemma {:induction false} PartNames(c: Config, i: nat, n: nat, x: Issue)
    requires i < |c.products| && n <= |Fields(c.products[i].allowedMarkets, ',')|
    requires var parts := Fields(c.products[i].allowedMarkets, ',');
      x in PartIssues(MarketCodes(c), IntText(c.products[i].fundId), parts, n)
    ensures Names(c, Products, i, x)
  {
    hide Strip, Fields, IntText, HasMarket, MarketCodes;
    var key, parts := IntText(c.products[i].fundId), Fields(c.products[i].allowedMarkets, ',');
    if x in PartIssues(MarketCodes(c), key, parts, n - 1) {
      PartNames(c, i, n - 1, x);
    } else {
      Codes(c);
      assert parts[n - 1] in parts;
    }
  }

  lemma RowNames(c: Config, pass: Pass, i: nat, x: Issue)
    requires i < Size(c, pass) && pass != Products && pass != Links && x in IssuesAt(c, pass, i)
    ensures Names(c, pass, i, x)
  {
    hide IntText, HasMarket, HasProduct, HasColocation, HasFuturesProduct, IsLinked, HasDefaultLink;
    hide MarketCodes, FundIds, ColoIds, FuturesKeys;
    Codes(c);
    if pass == Coverage { LinkedIff(c, c.projects[i].projectId); }
  }

  lemma LinkNames(c: Config, i: nat, x: Issue)
    requires i < |c.links| && x in LinkIssues(c, i)
    ensures Names(c, Links, i, x)
  {
    hide IntText, HasProduct, FundIds, FindProject, FindAccount;
    Codes(c);
  }

  lemma ProductIssuesAre(c: Config, i: nat)
    requires i < |c.products|
    ensures var parts := Fields(c.products[i].allowedMarkets, ',');
      IssuesAt(c, Products, i) == PartIssues(MarketCodes(c), IntText(c.products[i].fundId), parts, |parts|)
  {
  }

  lemma IssueNames(c: Config, pass: Pass, i: nat, x: Issue)
    requires i < Size(c, pass) && x in IssuesAt(c, pass, i)
    ensures Names(c, pass, i, x)
  {
    if pass == Products {
      ProductIssuesAre(c, i);
      PartNames(c, i, |Fields(c.products[i].allowedMarkets, ',')|, x);
    } else if pass == Links {
      LinkNames(c, i, x);
    } else {
      RowNames(c, pass, i, x);
    }
    hide Names, PartIssues, LinkIssues;
  }

  lemma {:induction false} FromRow(c: Config, pass: Pass, n: nat, x: Issue) returns (i: nat)
    requires n <= Size(c, pass) && x in IssuesTo(c, pass, n)
    ensures i < n && x in IssuesAt(c, pass, i)
  {
    hide IssuesAt;
    if x in IssuesTo(c, pass, n - 1) { i := FromRow(c, pass, n - 1, x); } else { i := n - 1; }
  }

  ghost predicate SomeRow(c: Config, x: Issue) {
    exists pass, i: nat :: i < Size(c, pass) && Names(c, pass, i, x)
  }

  lemma PassNames(c: Config, pass: Pass, x: Issue)
    requires x in PassIssues(c, pass)
    ensures SomeRow(c, x)
  {
    hide Names, IssuesAt, IssuesTo;
    var i := FromRow(c, pass, Size(c, pass), x);
    IssueNames(c, pass, i, x);
  }

  /** Every issue is true: it says that no market is enabled, or names a row of which its problem holds. */
  lemma EveryIssueIsTrue(c: Config, x: Issue)
    requires x in Issues(c)
    ensures (x.resource == "markets" && x.entityKey == "*" && !OpenMarket(c)
             && x.problem == if c.markets == [] then NoMarket else NoEnabledMarket)
        || SomeRow(c, x)
  {
    hide PassIssues, SomeRow;
    if x !in MarketIssues(c) {
      if pass: Pass :| x in PassIssues(c, pass) { PassNames(c, pass, x); }
    }
  }
}

/** What each operation on versions does to the rows of one version, and to the other versions. */
module VersionEdits {
  import opened Wrappers
  import opened PolicyConfig
  import opened PolicyValidator
  import opened ConfigVersions

  // ---------------------------------------------------------------- the rows of a configuration

  ghost predicate Has(c: Config, item: Item) {
    match item
    case MarketItem(m) => m in c.markets
    case ColocationItem(x) => x in c.colocations
    case ProductItem(p) => p in c.products
    case ProjectItem(j) => j in c.projects
    case AccountItem(a) => a in c.accounts
    case LinkItem(l) => l in c.links
    case SecurityItem(s) => s in c.securities
    case FuturesProductItem(f) => f in c.futuresProducts
    case ContractItem(t) => t in c.futuresContracts
  }

  /** Two rows of one table with the same identifying columns. */
  predicate SameRow(x: Item, y: Item) {
    match (x, y)
    case (MarketItem(a), MarketItem(b)) => a.marketCode == b.marketCode
    case (ColocationItem(a), ColocationItem(b)) => a.coloId == b.coloId
    case (ProductItem(a), ProductItem(b)) => a.fundId == b.fundId
    case (ProjectItem(a), ProjectItem(b)) => a.projectId == b.projectId
    case (AccountItem(a), AccountItem(b)) => a.accountId == b.accountId
    case (LinkItem(a), LinkItem(b)) =>
      a.projectId == b.projectId && a.accountId == b.accountId && a.accountType == b.accountType
    case (SecurityItem(a), SecurityItem(b)) => a.marketCode == b.marketCode && a.symbol == b.symbol
    case (FuturesProductItem(a), FuturesProductItem(b)) =>
      a.marketCode == b.marketCode && a.productCode == b.productCode
    case (ContractItem(a), ContractItem(b)) => a.marketCode == b.marketCode && a.symbol == b.symbol
    case _ => false
  }

  lemma SameRowIff(x: Item, y: Item)
    ensures KeyOfItem(x) == KeyOfItem(y) <==> SameRow(x, y)
  {
  }

  /** A configuration meets the unique constraints exactly when no two rows of a table have the same identifying
      columns and no two products the same code. */
  lemma KeyedIff(c: Config)
    ensures Keyed(c) <==>
      && (forall i, j :: 0 <= i < j < |c.markets| ==> c.markets[i].marketCode != c.markets[j].marketCode)
      && (forall i, j :: 0 <= i < j < |c.colocations| ==> c.colocations[i].coloId != c.colocations[j].coloId)
      && (forall i, j :: 0 <= i < j < |c.products| ==>
            c.products[i].fundId != c.products[j].fundId && c.products[i].fundCode != c.products[j].fundCode)
      && (forall i, j :: 0 <= i < j < |c.projects| ==> c.projects[i].projectId != c.projects[j].projectId)
      && (forall i, j :: 0 <= i < j < |c.accounts| ==> c.accounts[i].accountId != c.accounts[j].accountId)
      && (forall i, j :: 0 <= i < j < |c.links| ==> !SameRow(LinkItem(c.links[i]), LinkItem(c.links[j])))
      && (forall i, j :: 0 <= i < j < |c.securities| ==>
            !SameRow(SecurityItem(c.securities[i]), SecurityItem(c.securities[j])))
      && (forall i, j :: 0 <= i < j < |c.futuresProducts| ==>
            !SameRow(FuturesProductItem(c.futuresProducts[i]), FuturesProductItem(c.futuresProducts[j])))
      && (forall i, j :: 0 <= i < j < |c.futuresContracts| ==>
            !SameRow(ContractItem(c.futuresContracts[i]), ContractItem(c.futuresContracts[j])))
  {
  }

  /** Another product has the code of this one. */
  ghost predicate CodeTaken(c: Config, item: Item) {
    item.ProductItem?
    && exists p :: p in c.products && p.fundId != item.p.fundId && p.fundCode == item.p.fundCode
  }

  lemma PutCodes(rows: seq<ProductRow>, row: ProductRow)
    requires DistinctBy(rows, ProductKey) && DistinctBy(rows, FundCode)
    ensures DistinctBy(PutBy(rows, ProductKey, row), FundCode)
            <==> !exists p :: p in rows && p.fundId != row.fundId && p.fundCode == row.fundCode
  {
    var after, at := PutBy(rows, ProductKey, row), IndexBy(rows, ProductKey, row.fundId);
    var k := if at.Some? then at.value else |rows|;
    assert after[k] == row && forall i :: 0 <= i < |rows| && i != k ==> after[i] == rows[i];
    if p :| p in rows && p.fundId != row.fundId && p.fundCode == row.fundCode {
      var i :| 0 <= i < |rows| && rows[i] == p;
      assert FundCode(after[i]) == FundCode(after[k]);
    } else {
      forall i, j | 0 <= i < j < |after| ensures FundCode(after[i]) != FundCode(after[j]) {
        if i != k && j != k { assert FundCode(rows[i]) != FundCode(rows[j]); }
        if i == k { assert rows[j] in rows && ProductKey(rows[j]) != row.fundId; }
        if j == k && i < |rows| { assert rows[i] in rows && ProductKey(rows[i]) != row.fundId; }
      }
    }
  }

  /** An upserted row displaces exactly the row with its key, whatever its kind, and is refused exactly
      when another product has its code. */
  lemma PutItemMeans(c: Config, item: Item, x: Item)
    requires Keyed(c)
    ensures PutItem(c, item).None? <==> CodeTaken(c, item)
    ensures PutItem(c, item).Some? ==>
        (Has(PutItem(c, item).value, x) <==> x == item || (Has(c, x) && KeyOfItem(x) != KeyOfItem(item)))
  {
    hide DistinctBy, PutBy, IndexBy;
    match item
    case MarketItem(m) => if x.MarketItem? { PutMeans(c.markets, MarketKey, m, x.m); }
    case ColocationItem(r) => if x.ColocationItem? { PutMeans(c.colocations, ColocationKey, r, x.x); }
    case ProductItem(p) =>
      PutCodes(c.products, p);
      if x.ProductItem? { PutMeans(c.products, ProductKey, p, x.p); }
    case ProjectItem(j) => if x.ProjectItem? { PutMeans(c.projects, ProjectKey, j, x.j); }
    case AccountItem(a) => if x.AccountItem? { PutMeans(c.accounts, AccountKey, a, x.a); }
    case LinkItem(l) => if x.LinkItem? { PutMeans(c.links, LinkKey, l, x.l); }
    case SecurityItem(s) => if x.SecurityItem? { PutMeans(c.securities, SecurityPair, s, x.s); }
    case FuturesProductItem(f) =>
      if x.FuturesProductItem? { PutMeans(c.futuresProducts, FuturesProductPair, f, x.f); }
    case ContractItem(t) => if x.ContractItem? { PutMeans(c.futuresContracts, ContractPair, t, x.t); }
  }

  lemma Deleted<T, K>(rows: seq<T>, key: T -> K, k: K)
    ensures DeleteBy(rows, key, k).Some? <==> exists x :: x in rows && key(x) == k
  {
    if i :| 0 <= i < |rows| && key(rows[i]) == k { assert rows[i] in rows; }
  }

  ghost predicate HasKey(c: Config, key: ItemKey) { exists x :: Has(c, x) && KeyOfItem(x) == key }

  /** A delete takes out exactly the row with its key, and is refused exactly when there is none. */
  lemma DeleteItemMeans(c: Config, key: ItemKey, x: Item)
    requires Keyed(c) && DeleteItem(c, key).Some?
    ensures Has(DeleteItem(c, key).value, x) <==> Has(c, x) && KeyOfItem(x) != key
  {
    hide DistinctBy, DeleteBy, IndexBy;
    match key
    case MarketId(k) => if x.MarketItem? { DeleteMeans(c.markets, MarketKey, k, x.m); }
    case ColocationId(k) => if x.ColocationItem? { DeleteMeans(c.colocations, ColocationKey, k, x.x); }
    case ProductId(k) => if x.ProductItem? { DeleteMeans(c.products, ProductKey, k, x.p); }
    case ProjectId(k) => if x.ProjectItem? { DeleteMeans(c.projects, ProjectKey, k, x.j); }
    case AccountId(k) => if x.AccountItem? { DeleteMeans(c.accounts, AccountKey, k, x.a); }
    case LinkId(k) => if x.LinkItem? { DeleteMeans(c.links, LinkKey, k, x.l); }
    case SecurityId(k) => if x.SecurityItem? { DeleteMeans(c.securities, SecurityPair, k, x.s); }
    case FuturesProductId(k) =>
      if x.FuturesProductItem? { DeleteMeans(c.futuresProducts, FuturesProductPair, k, x.f); }
    case ContractId(k) => if x.ContractItem? { DeleteMeans(c.futuresContracts, ContractPair, k, x.t); }
  }

  lemma DeleteItemIff(c: Config, key: ItemKey)
    ensures DeleteItem(c, key).Some? <==> HasKey(c, key)
  {
    hide DistinctBy, DeleteBy, IndexBy;
    match key
    case MarketId(k) =>
      Deleted(c.markets, MarketKey, k);
      assert forall m: MarketRow :: Has(c, MarketItem(m)) <==> m in c.markets;
    case ColocationId(k) =>
      Deleted(c.colocations, ColocationKey, k);
      assert forall x: ColocationRow :: Has(c, ColocationItem(x)) <==> x in c.colocations;
    case ProductId(k) =>
      Deleted(c.products, ProductKey, k);
      assert forall p: ProductRow :: Has(c, ProductItem(p)) <==> p in c.products;
    case ProjectId(k) =>
      Deleted(c.projects, ProjectKey, k);
      assert forall j: ProjectRow :: Has(c, ProjectItem(j)) <==> j in c.projects;
    case AccountId(k) =>
      Deleted(c.accounts, AccountKey, k);
      assert forall a: AccountRow :: Has(c, AccountItem(a)) <==> a in c.accounts;
    case LinkId(k) =>
      Deleted(c.links, LinkKey, k);
      assert forall l: LinkRow :: Has(c, LinkItem(l)) <==> l in c.links;
    case SecurityId(k) =>
      Deleted(c.securities, SecurityPair, k);
      assert forall s: SecurityRow :: Has(c, SecurityItem(s)) <==> s in c.securities;
    case FuturesProductId(k) =>
      Deleted(c.futuresProducts, FuturesProductPair, k);
      assert forall f: FuturesProductRow :: Has(c, FuturesProductItem(f)) <==> f in c.futuresProducts;
    case ContractId(k) =>
      Deleted(c.futuresContracts, ContractPair, k);
      assert forall t: FuturesContractRow :: Has(c, ContractItem(t)) <==> t in c.futuresContracts;
  }

  // ---------------------------------------------------------------- one version of the store

  predicate IsDraft(store: Store, version: int) {
    1 <= version <= |store| && store[version - 1].status == DRAFT
  }

  /** A draft edited in place: no other version changes, and it stays a draft. */
  ghost predicate EditsOnly(store: Store, after: Store, version: int)
    requires 1 <= version <= |store|
  {
    && |after| == |store| && after[version - 1].status == DRAFT
    && forall k :: 0 <= k < |store| && k != version - 1 ==> after[k] == store[k]
  }

  /** An upsert goes through exactly for a draft, a readable payload that agrees with its key, and a code no
      other product has; it displaces exactly the row with the key, in that version only. */
  lemma UpsertMeans(store: Store, version: int, key: ItemKey, item: Option<Item>)
    requires Inv(store)
    ensures Apply(store, Upsert(version, key, item)).Ok? <==>
        && IsDraft(store, version) && item.Some? && KeyOfItem(item.value) == key
        && !CodeTaken(store[version - 1].content, item.value)
    ensures Apply(store, Upsert(version, key, item)).Ok? ==>
        var after := Apply(store, Upsert(version, key, item)).value;
        && EditsOnly(store, after, version)
        && forall x :: Has(after[version - 1].content, x) <==>
            x == item.value || (Has(store[version - 1].content, x) && KeyOfItem(x) != key)
  {
    hide Inv, Has, KeyOfItem, PutItem, CodeTaken;
    if IsDraft(store, version) && item.Some? {
      ContentKeyed(store, version - 1);
      var c := store[version - 1].content;
      PutItemMeans(c, item.value, item.value);
      if KeyOfItem(item.value) == key && PutItem(c, item.value).Some? {
        var after := Apply(store, Upsert(version, key, item)).value;
        forall x ensures Has(after[version - 1].content, x) <==>
            x == item.value || (Has(c, x) && KeyOfItem(x) != key)
        {
          PutItemMeans(c, item.value, x);
        }
      }
    }
  }

  /** A delete goes through exactly for a draft with such a row, and takes out that row only. */
  lemma DeletionMeans(store: Store, version: int, key: ItemKey)
    requires Inv(store)
    ensures Apply(store, Delete(version, key)).Ok?
            <==> IsDraft(store, version) && HasKey(store[version - 1].content, key)
    ensures Apply(store, Delete(version, key)).Ok? ==>
        var after := Apply(store, Delete(version, key)).value;
        && EditsOnly(store, after, version)
        && forall x :: Has(after[version - 1].content, x) <==>
            Has(store[version - 1].content, x) && KeyOfItem(x) != key
  {
    hide Inv, Has, KeyOfItem, DeleteItem, HasKey;
    if IsDraft(store, version) {
      ContentKeyed(store, version - 1);
      var c := store[version - 1].content;
      DeleteItemIff(c, key);
      if DeleteItem(c, key).Some? {
        forall x { DeleteItemMeans(c, key, x); }
      }
    }
  }

  lemma ReplacedHas(c: Config, rows: seq<SecurityRow>, x: Item)
    ensures Has(c.(securities := rows), x) <==> if x.SecurityItem? then x.s in rows else Has(c, x)
  {
  }

  /** Replacing securities goes through exactly for a draft and distinct pairs, and changes securities only. */
  lemma ReplacementMeans(store: Store, version: int, rows: seq<SecurityRow>)
    ensures Apply(store, ReplaceSecurities(version, rows)).Ok? <==>
        && IsDraft(store, version)
        && forall i, j :: 0 <= i < j < |rows| ==>
            rows[i].marketCode != rows[j].marketCode || rows[i].symbol != rows[j].symbol
    ensures Apply(store, ReplaceSecurities(version, rows)).Ok? ==>
        var after := Apply(store, ReplaceSecurities(version, rows)).value;
        && EditsOnly(store, after, version)
        && forall x :: Has(after[version - 1].content, x) <==>
            if x.SecurityItem? then x.s in rows else Has(store[version - 1].content, x)
  {
    hide Has, DistinctBy;
    PairsDistinct(rows);
    if IsDraft(store, version) && DistinctBy(rows, SecurityPair) {
      var c := store[version - 1].content;
      var after := Apply(store, ReplaceSecurities(version, rows)).value;
      assert after[version - 1].content == c.(securities := rows);
      forall x ensures Has(after[version - 1].content, x) <==> if x.SecurityItem? then x.s in rows else Has(c, x) {
        ReplacedHas(c, rows, x);
      }
    }
  }

  lemma PairsDistinct(rows: seq<SecurityRow>)
    ensures DistinctBy(rows, SecurityPair) <==> forall i, j :: 0 <= i < j < |rows| ==>
        rows[i].marketCode != rows[j].marketCode || rows[i].symbol != rows[j].symbol
  {
  }

  /** A new version is a draft after all others: a copy of the published or retired version asked for or,
      with none asked for, of the published one, and empty when nothing is published. */
  lemma CreationMeans(store: Store, source: Option<int>)
    requires Inv(store)
    ensures Apply(store, Create(source)).Ok? <==>
        source.None? || (1 <= source.value <= |store|
                         && (store[source.value - 1].status == PUBLISHED || store[source.value - 1].status == RETIRED))
    ensures Apply(store, Create(source)).Ok? ==>
        var after := Apply(store, Create(source)).value;
        && |after| == |store| + 1 && after[..|store|] == store && after[|store|].status == DRAFT
        && (source.Some? ==> after[|store|].content == store[source.value - 1].content)
        && (source.None? ==> forall k :: 0 <= k < |store| && store[k].status == PUBLISHED ==>
              after[|store|].content == store[k].content)
        && (source.None? && (forall k :: 0 <= k < |store| ==> store[k].status != PUBLISHED) ==>
              forall x :: !Has(after[|store|].content, x))
  {
    hide Keyed, Issues, CheckedUnlessDraft, AllKeyed;
    if source.None? && Current(store).Some? {
      forall k | 0 <= k < |store| && store[k].status == PUBLISHED ensures Current(store) == Some(k) {
        CurrentIs(store, k);
      }
    }
  }

  /** Validation goes through for drafts and validated versions, and validates exactly the drafts without issues. */
  lemma ValidationMeans(store: Store, version: int)
    ensures Apply(store, Validate(version)).Ok? <==>
        1 <= version <= |store| && store[version - 1].status != PUBLISHED && store[version - 1].status != RETIRED
    ensures Apply(store, Validate(version)).Ok? ==>
        var after := Apply(store, Validate(version)).value;
        && |after| == |store| && after[version - 1].content == store[version - 1].content
        && (after[version - 1].status == VALIDATED <==>
              store[version - 1].status == VALIDATED || Issues(store[version - 1].content) == [])
        && (after[version - 1].status == VALIDATED || after[version - 1].status == DRAFT)
        && forall k :: 0 <= k < |store| && k != version - 1 ==> after[k] == store[k]
  {
    hide Issues;
  }

  /** In every run publishing goes through exactly for validated versions; afterwards that version is the
      only published one, the one before it is retired, and no content or other status has changed. */
  lemma PublicationMeans(store: Store, version: int)
    requires Inv(store)
    ensures Apply(store, Publish(version)).Ok?
            <==> 1 <= version <= |store| && store[version - 1].status == VALIDATED
    ensures Apply(store, Publish(version)).Ok? ==>
        var after := Apply(store, Publish(version)).value;
        && |after| == |store| && (forall k :: 0 <= k < |store| ==> after[k].content == store[k].content)
        && (forall k :: 0 <= k < |store| ==> (after[k].status == PUBLISHED <==> k == version - 1))
        && (forall k :: 0 <= k < |store| && k != version - 1 ==>
              after[k].status == if store[k].status == PUBLISHED then RETIRED else store[k].status)
  {
    hide Issues, Keyed;
  }

  lemma PermissionSet(c: Config, i: nat, buyAllowed: bool, x: Item)
    requires Keyed(c) && i < |c.securities|
    ensures Has(SetBuyAllowed(c, i, buyAllowed), x) <==>
        || x == SecurityItem(c.securities[i].(buyAllowed := buyAllowed))
        || (Has(c, x) && x != SecurityItem(c.securities[i]))
  {
    var rows, row := c.securities, c.securities[i];
    var after := rows[i := row.(buyAllowed := buyAllowed)];
    forall s: SecurityRow ensures s in after <==> s == row.(buyAllowed := buyAllowed) || (s in rows && s != row) {
      if s in rows && s != row {
        var k :| 0 <= k < |rows| && rows[k] == s;
        assert after[k] == s;
      }
      assert after[i] == row.(buyAllowed := buyAllowed);
      if s in after && s != after[i] {
        var k :| 0 <= k < |after| && after[k] == s;
        assert SecurityPair(rows[k]) != SecurityPair(rows[i]);
      }
    }
    hide DistinctBy;
  }

  /** Quick publication retires the published version and publishes a copy in which the security named, and nothing
      else, has the buy permission asked for. */
  lemma QuickPublicationMeans(store: Store, marketCode: string, symbol: string, buyAllowed: bool, k: nat, i: nat)
    requires Inv(store) && k < |store| && store[k].status == PUBLISHED && i < |store[k].content.securities|
    requires store[k].content.securities[i].marketCode == marketCode && store[k].content.securities[i].symbol == symbol
    ensures var r := Apply(store, QuickPublish(marketCode, symbol, buyAllowed));
      && r.Ok? && |r.value| == |store| + 1
      && (forall j :: 0 <= j < |store| && j != k ==> r.value[j] == store[j])
      && r.value[k] == Version(RETIRED, store[k].content) && r.value[|store|].status == PUBLISHED
      && var row := store[k].content.securities[i];
      forall x :: Has(r.value[|store|].content, x) <==>
        || x == SecurityItem(row.(buyAllowed := buyAllowed)) || (Has(store[k].content, x) && x != SecurityItem(row))
  {
    hide Inv, Has, SetBuyAllowed, Apply, Keyed;
    QuickPublishSucceeds(store, marketCode, symbol, buyAllowed, k, i);
    ContentKeyed(store, k);
    forall x { PermissionSet(store[k].content, i, buyAllowed, x); }
  }
}

/** The life of configuration versions: drafts, validation, publication, and the quick change of one security. */
module ConfigVersions {
  import opened Wrappers
  import opened Text
  import opened PolicyConfig
  import opened PolicyValidator

  datatype Status = DRAFT | VALIDATED | PUBLISHED | RETIRED

  datatype Version = Version(status: Status, content: Config)

  /** Version number v is at index v - 1: numbers start at 1, each new one is the greatest plus one, none is deleted. */
  type Store = seq<Version>

  datatype Item =
    | MarketItem(m: MarketRow) | ColocationItem(x: ColocationRow) | ProductItem(p: ProductRow)
    | ProjectItem(j: ProjectRow)
    | AccountItem(a: AccountRow) | LinkItem(l: LinkRow) | SecurityItem(s: SecurityRow)
    | FuturesProductItem(f: FuturesProductRow) | ContractItem(t: FuturesContractRow)

  datatype ItemKey =
    | MarketId(code: string) | ColocationId(id: int) | ProductId(id: int) | ProjectId(id: int)
    | AccountId(account: string)
    | LinkId(key: (int, string, string)) | SecurityId(pair: (string, string)) | FuturesProductId(pair: (string, string))
    | ContractId(pair: (string, string))

  datatype Failure =
    | NotFound | NotCopyable | NotDraft | NotValidated | NotCheckable | BadPayload | KeyDiffers | Duplicate
    | ItemMissing
    | DuplicateInput | Invalid(issues: seq<Issue>) | NoPublished | SecurityMissing

  /** An upsert whose payload the schema refuses has no item. */
  datatype Op =
    | Create(source: Option<int>)
    | Upsert(version: int, key: ItemKey, item: Option<Item>)
    | Delete(version: int, key: ItemKey)
    | ReplaceSecurities(version: int, rows: seq<SecurityRow>)
    | Validate(version: int)
    | Publish(version: int)
    | QuickPublish(marketCode: string, symbol: string, buyAllowed: bool)

  const EMPTY: Config := Config([], [], [], [], [], [], [], [], [])

  // ---------------------------------------------------------------- keyed tables

  predicate DistinctBy<T, K(==)>(rows: seq<T>, key: T -> K) {
    forall i, j | 0 <= i < j < |rows| :: key(rows[i]) != key(rows[j])
  }

  function IndexBy<T, K(==)>(rows: seq<T>, key: T -> K, k: K): (r: Option<nat>)
    ensures r.Some? ==> r.value < |rows| && key(rows[r.value]) == k
    ensures r.None? ==> forall i :: 0 <= i < |rows| ==> key(rows[i]) != k
  {
    if rows == [] then None
    else if key(rows[|rows| - 1]) == k then Some(|rows| - 1)
    else IndexBy(rows[..|rows| - 1], key, k)
  }

  function PutBy<T, K(==)>(rows: seq<T>, key: T -> K, row: T): (r: seq<T>)
    ensures DistinctBy(rows, key) ==> DistinctBy(r, key)
  {
    match IndexBy(rows, key, key(row))
    case None => rows + [row]
    case Some(i) => rows[i := row]
  }

  /** Removes the row with key `k`; None when there is none. */
  function DeleteBy<T, K(==)>(rows: seq<T>, key: T -> K, k: K): (r: Option<seq<T>>)
    ensures r.Some? <==> exists i :: 0 <= i < |rows| && key(rows[i]) == k
    ensures r.Some? && DistinctBy(rows, key) ==> DistinctBy(r.value, key)
  {
    match IndexBy(rows, key, k)
    case None => None
    case Some(i) => Some(rows[..i] + rows[i + 1..])
  }

  /** In a keyed table, putting a row displaces exactly the row with its key. */
  lemma PutMeans<T, K>(rows: seq<T>, key: T -> K, row: T, x: T)
    requires DistinctBy(rows, key)
    ensures x in PutBy(rows, key, row) <==> x == row || (x in rows && key(x) != key(row))
  {
  }

  /** In a keyed table, deleting a key takes out exactly the row with that key. */
  lemma DeleteMeans<T, K>(rows: seq<T>, key: T -> K, k: K, x: T)
    requires DistinctBy(rows, key) && DeleteBy(rows, key, k).Some?
    ensures x in DeleteBy(rows, key, k).value <==> x in rows && key(x) != k
  {
  }

  function MarketKey(m: MarketRow): string { m.marketCode }

  function ColocationKey(x: ColocationRow): int { x.coloId }

  function ProductKey(p: ProductRow): int { p.fundId }

  function FundCode(p: ProductRow): string { p.fundCode }

  function ProjectKey(j: ProjectRow): int { j.projectId }

  function AccountKey(a: AccountRow): string { a.accountId }

  function LinkKey(l: LinkRow): (int, string, string) { (l.projectId, l.accountId, l.accountType) }

  function SecurityPair(s: SecurityRow): (string, string) { (s.marketCode, s.symbol) }

  function FuturesProductPair(f: FuturesProductRow): (string, string) { (f.marketCode, f.productCode) }

  function ContractPair(t: FuturesContractRow): (string, string) { (t.marketCode, t.symbol) }

  /** The unique constraints of the schema. */
  predicate Keyed(c: Config) {
    && DistinctBy(c.markets, MarketKey) && DistinctBy(c.colocations, ColocationKey)
    && DistinctBy(c.products, ProductKey) && DistinctBy(c.products, FundCode)
    && DistinctBy(c.projects, ProjectKey) && DistinctBy(c.accounts, AccountKey) && DistinctBy(c.links, LinkKey)
    && DistinctBy(c.securities, SecurityPair) && DistinctBy(c.futuresProducts, FuturesProductPair)
    && DistinctBy(c.futuresContracts, ContractPair)
  }

  function KeyOfItem(item: Item): ItemKey {
    match item
    case MarketItem(m) => MarketId(MarketKey(m))
    case ColocationItem(x) => ColocationId(ColocationKey(x))
    case ProductItem(p) => ProductId(ProductKey(p))
    case ProjectItem(j) => ProjectId(ProjectKey(j))
    case AccountItem(a) => AccountId(AccountKey(a))
    case LinkItem(l) => LinkId(LinkKey(l))
    case SecurityItem(s) => SecurityId(SecurityPair(s))
    case FuturesProductItem(f) => FuturesProductId(FuturesProductPair(f))
    case ContractItem(t) => ContractId(ContractPair(t))
  }

  /** Inserts or replaces a row; None when a second unique constraint forbids it. */
  function PutItem(c: Config, item: Item): (r: Option<Config>)
    ensures r.Some? && Keyed(c) ==> Keyed(r.value)
  {
    match item
    case MarketItem(m) => Some(c.(markets := PutBy(c.markets, MarketKey, m)))
    case ColocationItem(x) => Some(c.(colocations := PutBy(c.colocations, ColocationKey, x)))
    case ProductItem(p) =>
      var rows := PutBy(c.products, ProductKey, p);
      if DistinctBy(rows, FundCode) then Some(c.(products := rows)) else None
    case ProjectItem(j) => Some(c.(projects := PutBy(c.projects, ProjectKey, j)))
    case AccountItem(a) => Some(c.(accounts := PutBy(c.accounts, AccountKey, a)))
    case LinkItem(l) => Some(c.(links := PutBy(c.links, LinkKey, l)))
    case SecurityItem(s) => Some(c.(securities := PutBy(c.securities, SecurityPair, s)))
    case FuturesProductItem(f) => Some(c.(futuresProducts := PutBy(c.futuresProducts, FuturesProductPair, f)))
    case ContractItem(t) => Some(c.(futuresContracts := PutBy(c.futuresContracts, ContractPair, t)))
  }

  /** Removes the row with this key; None when there is none. */
  function DeleteItem(c: Config, key: ItemKey): Option<Config> {
    match key
    case MarketId(k) =>
      (match DeleteBy(c.markets, MarketKey, k) case None => None case Some(rows) => Some(c.(markets := rows)))
    case ColocationId(k) =>
      (match DeleteBy(c.colocations, ColocationKey, k)
       case None => None
       case Some(rows) => Some(c.(colocations := rows)))
    case ProductId(k) =>
      (match DeleteBy(c.products, ProductKey, k) case None => None case Some(rows) => Some(c.(products := rows)))
    case ProjectId(k) =>
      (match DeleteBy(c.projects, ProjectKey, k) case None => None case Some(rows) => Some(c.(projects := rows)))
    case AccountId(k) =>
      (match DeleteBy(c.accounts, AccountKey, k) case None => None case Some(rows) => Some(c.(accounts := rows)))
    case LinkId(k) =>
      (match DeleteBy(c.links, LinkKey, k) case None => None case Some(rows) => Some(c.(links := rows)))
    case SecurityId(k) =>
      (match DeleteBy(c.securities, SecurityPair, k) case None => None case Some(rows) => Some(c.(securities := rows)))
    case FuturesProductId(k) =>
      (match DeleteBy(c.futuresProducts, FuturesProductPair, k)
       case None => None
       case Some(rows) => Some(c.(futuresProducts := rows)))
    case ContractId(k) =>
      (match DeleteBy(c.futuresContracts, ContractPair, k)
       case None => None
       case Some(rows) => Some(c.(futuresContracts := rows)))
  }

  lemma DeleteKeepsCodes(rows: seq<ProductRow>, k: int)
    requires DistinctBy(rows, FundCode)
    ensures var r := DeleteBy(rows, ProductKey, k); r.Some? ==> DistinctBy(r.value, FundCode)
  {
  }

  lemma DeleteKeepsKeyed(c: Config, key: ItemKey)
    requires Keyed(c)
    ensures DeleteItem(c, key).Some? ==> Keyed(DeleteItem(c, key).value)
  {
    hide DistinctBy, DeleteBy;
    if key.ProductId? { DeleteKeepsCodes(c.products, key.id); }
  }

  // ---------------------------------------------------------------- what each operation does

  predicate Known(store: Store, version: int) { 1 <= version <= |store| }

  function EnsureDraft(store: Store, version: int): (r: Option<Failure>)
    ensures r.None? <==> Known(store, version) && store[version - 1].status == DRAFT
  {
    if !Known(store, version) then Some(NotFound)
    else if store[version - 1].status != DRAFT then Some(NotDraft)
    else None
  }

  /** The index of the published version with the greatest number. */
  function Current(store: Store): (r: Option<nat>)
    ensures r.Some? ==> r.value < |store| && store[r.value].status == PUBLISHED
    ensures r.None? <==> forall k :: 0 <= k < |store| ==> store[k].status != PUBLISHED
  {
    if store == [] then None
    else if store[|store| - 1].status == PUBLISHED then Some(|store| - 1)
    else Current(store[..|store| - 1])
  }

  function CreateFrom(store: Store, source: Option<nat>): Store
    requires source.Some? ==> source.value < |store|
  {
    store + [Version(DRAFT, if source.Some? then store[source.value].content else EMPTY)]
  }

  function CreateVersion(store: Store, source: Option<int>): Result<Store, Failure> {
    match source
    case Some(version) =>
      if !Known(store, version) then Err(NotFound)
      else if store[version - 1].status !in {PUBLISHED, RETIRED} then Err(NotCopyable)
      else Ok(CreateFrom(store, Some(version - 1)))
    case None => Ok(CreateFrom(store, Current(store)))
  }

  function SetContent(store: Store, version: int, content: Config): Store
    requires Known(store, version)
  {
    store[version - 1 := Version(DRAFT, content)]
  }

  function UpsertResource(store: Store, version: int, key: ItemKey, item: Option<Item>): Result<Store, Failure> {
    if EnsureDraft(store, version).Some? then Err(EnsureDraft(store, version).value)
    else if item.None? then Err(BadPayload)
    else if KeyOfItem(item.value) != key then Err(KeyDiffers)
    else match PutItem(store[version - 1].content, item.value)
      case None => Err(Duplicate)
      case Some(content) => Ok(SetContent(store, version, content))
  }

  function DeleteResource(store: Store, version: int, key: ItemKey): Result<Store, Failure> {
    if EnsureDraft(store, version).Some? then Err(EnsureDraft(store, version).value)
    else match DeleteItem(store[version - 1].content, key)
      case None => Err(ItemMissing)
      case Some(content) => Ok(SetContent(store, version, content))
  }

  function ReplaceAllSecurities(store: Store, version: int, rows: seq<SecurityRow>): Result<Store, Failure> {
    if EnsureDraft(store, version).Some? then Err(EnsureDraft(store, version).value)
    else if !DistinctBy(rows, SecurityPair) then Err(DuplicateInput)
    else Ok(SetContent(store, version, store[version - 1].content.(securities := rows)))
  }

  function ValidateVersion(store: Store, version: int): Result<Store, Failure> {
    if !Known(store, version) then Err(NotFound)
    else if store[version - 1].status !in {DRAFT, VALIDATED} then Err(NotCheckable)
    else if store[version - 1].status == DRAFT && Issues(store[version - 1].content) == []
    then Ok(store[version - 1 := store[version - 1].(status := VALIDATED)])
    else Ok(store)
  }

  /** Every published version retired. */
  function Retired(store: Store): (r: Store)
    ensures |r| == |store|
    ensures forall k :: 0 <= k < |store| ==>
      r[k] == if store[k].status == PUBLISHED then store[k].(status := RETIRED) else store[k]
  {
    seq(|store|, k requires 0 <= k < |store| =>
      if store[k].status == PUBLISHED then store[k].(status := RETIRED) else store[k])
  }

  function PublishVersion(store: Store, version: int): Result<Store, Failure> {
    if !Known(store, version) then Err(NotFound)
    else if store[version - 1].status != VALIDATED then Err(NotValidated)
    else
      var issues := Issues(store[version - 1].content);
      if issues != [] then Err(Invalid(issues))
      else Ok(Retired(store)[version - 1 := store[version - 1].(status := PUBLISHED)])
  }

  function SetBuyAllowed(c: Config, i: nat, buyAllowed: bool): Config
    requires i < |c.securities|
  {
    c.(securities := c.securities[i := c.securities[i].(buyAllowed := buyAllowed)])
  }

  function PublishBuyAllowed(store: Store, marketCode: string, symbol: string,
      buyAllowed: bool): Result<Store, Failure>
  {
    match Current(store)
    case None => Err(NoPublished)
    case Some(k) =>
      match IndexBy(store[k].content.securities, SecurityPair, (marketCode, symbol))
      case None => Err(SecurityMissing)
      case Some(i) =>
        var content := SetBuyAllowed(store[k].content, i, buyAllowed);
        var issues := Issues(content);
        if issues != [] then Err(Invalid(issues))
        else Ok(store[k := store[k].(status := RETIRED)] + [Version(PUBLISHED, content)])
  }

  function Apply(store: Store, op: Op): Result<Store, Failure> {
    match op
    case Create(source) => CreateVersion(store, source)
    case Upsert(version, key, item) => UpsertResource(store, version, key, item)
    case Delete(version, key) => DeleteResource(store, version, key)
    case ReplaceSecurities(version, rows) => ReplaceAllSecurities(store, version, rows)
    case Validate(version) => ValidateVersion(store, version)
    case Publish(version) => PublishVersion(store, version)
    case QuickPublish(marketCode, symbol, buyAllowed) => PublishBuyAllowed(store, marketCode, symbol, buyAllowed)
  }

  /** The store after a run of requests; a failed one is rolled back. */
  function Run(ops: seq<Op>): Store {
    if ops == [] then []
    else
      var before := Run(ops[..|ops| - 1]);
      match Apply(before, ops[|ops| - 1])
      case Err(_) => before
      case Ok(after) => after
  }

  lemma {:induction false} RunSnoc(front: seq<Op>, op: Op)
    ensures Run(front + [op]) == match Apply(Run(front), op) case Err(_) => Run(front) case Ok(after) => after
  {
    hide Apply;
    assert (front + [op])[..|front|] == front;
  }

  // ---------------------------------------------------------------- what every operation keeps

  ghost predicate OnePublished(store: Store) {
    forall i, j :: 0 <= i < j < |store| ==> !(store[i].status == PUBLISHED && store[j].status == PUBLISHED)
  }

  ghost predicate CheckedUnlessDraft(store: Store) {
    forall k :: 0 <= k < |store| && store[k].status != DRAFT ==> Issues(store[k].content) == []
  }

  ghost predicate AllKeyed(store: Store) {
    forall k :: 0 <= k < |store| ==> Keyed(store[k].content)
  }

  ghost predicate Inv(store: Store) {
    OnePublished(store) && CheckedUnlessDraft(store) && AllKeyed(store)
  }

  predicate Later(s: Status, t: Status) {
    s == t || s == DRAFT || (s == VALIDATED && t == PUBLISHED) || (s == PUBLISHED && t == RETIRED)
    || (s == VALIDATED && t == RETIRED)
  }

  /** Versions only get added; one that is no draft keeps its content and its status only moves on. */
  ghost predicate Frozen(store: Store, after: Store) {
    && |store| <= |after|
    && forall k :: 0 <= k < |store| && store[k].status != DRAFT ==>
        after[k].content == store[k].content && Later(store[k].status, after[k].status)
  }

  lemma EditKeeps(store: Store, version: int, content: Config)
    requires Inv(store) && Known(store, version) && store[version - 1].status == DRAFT && Keyed(content)
    ensures Inv(SetContent(store, version, content)) && Frozen(store, SetContent(store, version, content))
  {
    hide Keyed, Issues;
  }

  lemma CreateKeeps(store: Store, source: Option<nat>)
    requires Inv(store) && (source.Some? ==> source.value < |store|)
    ensures Inv(CreateFrom(store, source)) && Frozen(store, CreateFrom(store, source))
  {
  }

  lemma StatusKeeps(store: Store, op: Op)
    requires Inv(store) && (op.Validate? || op.Publish?)
    ensures Apply(store, op).Ok? ==> Inv(Apply(store, op).value) && Frozen(store, Apply(store, op).value)
  {
    hide Keyed, Issues;
  }

  /** A change of one security's buy permission is invisible to the validator. */
  lemma BuyAllowedUnchecked(c: Config, i: nat, buyAllowed: bool)
    requires i < |c.securities|
    ensures Issues(SetBuyAllowed(c, i, buyAllowed)) == Issues(c)
  {
    var c' := SetBuyAllowed(c, i, buyAllowed);
    assert MarketIssues(c') == MarketIssues(c);
    forall pass: Pass ensures PassIssues(c', pass) == PassIssues(c, pass) {
      SameIssuesTo(c, i, buyAllowed, pass, Size(c, pass));
    }
    hide PassIssues, MarketIssues;
  }

  lemma {:induction false} SameIssuesTo(c: Config, i: nat, buyAllowed: bool, pass: Pass, n: nat)
    requires i < |c.securities| && n <= Size(c, pass)
    ensures IssuesTo(SetBuyAllowed(c, i, buyAllowed), pass, n) == IssuesTo(c, pass, n)
  {
    hide IssuesAt;
    if n > 0 {
      SameIssuesTo(c, i, buyAllowed, pass, n - 1);
      SameIssuesAt(c, i, buyAllowed, pass, n - 1);
    }
  }

  lemma SameIssuesAt(c: Config, i: nat, buyAllowed: bool, pass: Pass, n: nat)
    requires i < |c.securities| && n < Size(c, pass)
    ensures IssuesAt(SetBuyAllowed(c, i, buyAllowed), pass, n) == IssuesAt(c, pass, n)
  {
    var c' := SetBuyAllowed(c, i, buyAllowed);
    assert MarketCodes(c') == MarketCodes(c) && FundIds(c') == FundIds(c) && ColoIds(c') == ColoIds(c)
        && FuturesKeys(c') == FuturesKeys(c);
    hide MarketCodes, FundIds, ColoIds, FuturesKeys, FindProject, FindAccount, PartIssues, Fields, IntText;
    assert pass == Coverage
        ==> HasDefaultLink(c', c.projects[n].projectId) == HasDefaultLink(c, c.projects[n].projectId);
    assert pass == Links ==> DefaultAmong(c', n, c.links[n].projectId, c.links[n].accountType)
                             == DefaultAmong(c, n, c.links[n].projectId, c.links[n].accountType);
  }

  lemma SetBuyAllowedKeyed(c: Config, i: nat, buyAllowed: bool)
    requires Keyed(c) && i < |c.securities|
    ensures Keyed(SetBuyAllowed(c, i, buyAllowed))
  {
  }

  lemma CurrentIs(store: Store, k: nat)
    requires OnePublished(store) && k < |store| && store[k].status == PUBLISHED
    ensures Current(store) == Some(k)
  {
  }

  /** With a published version holding the security, the quick change always goes through. It retires
      that version and publishes a copy that differs in that one permission only. */
  lemma QuickPublishSucceeds(store: Store, marketCode: string, symbol: string, buyAllowed: bool, k: nat, i: nat)
    requires Inv(store) && k < |store| && store[k].status == PUBLISHED
    requires i < |store[k].content.securities| && SecurityPair(store[k].content.securities[i]) == (marketCode, symbol)
    ensures Apply(store, QuickPublish(marketCode, symbol, buyAllowed)) ==
      Ok(store[k := Version(RETIRED, store[k].content)]
          + [Version(PUBLISHED, SetBuyAllowed(store[k].content, i, buyAllowed))])
  {
    hide Issues, SetBuyAllowed, IndexBy, Keyed, Current;
    var c := store[k].content;
    BuyAllowedUnchecked(c, i, buyAllowed);
    CurrentIs(store, k);
    OneIndex(c, marketCode, symbol, i);
  }

  lemma OneIndex(c: Config, marketCode: string, symbol: string, i: nat)
    requires Keyed(c) && i < |c.securities| && SecurityPair(c.securities[i]) == (marketCode, symbol)
    ensures IndexBy(c.securities, SecurityPair, (marketCode, symbol)) == Some(i)
  {
  }

  lemma ReplaceCurrent(store: Store, k: nat, content: Config)
    requires Inv(store) && k < |store| && store[k].status == PUBLISHED && Keyed(content) && Issues(content) == []
    ensures var after := store[k := store[k].(status := RETIRED)] + [Version(PUBLISHED, content)];
      Inv(after) && Frozen(store, after)
  {
    hide Keyed, Issues;
    forall j | 0 <= j < |store| && j != k ensures store[j].status != PUBLISHED { if j < k {} }
  }

  lemma QuickPublishKeeps(store: Store, marketCode: string, symbol: string, buyAllowed: bool)
    requires Inv(store)
    ensures var r := PublishBuyAllowed(store, marketCode, symbol, buyAllowed);
      r.Ok? ==> Inv(r.value) && Frozen(store, r.value)
  {
    hide Inv, Frozen, Keyed, Issues, Current, IndexBy, SetBuyAllowed;
    var r := PublishBuyAllowed(store, marketCode, symbol, buyAllowed);
    if r.Ok? {
      var k := Current(store).value;
      var c := store[k].content;
      var i := IndexBy(c.securities, SecurityPair, (marketCode, symbol)).value;
      ContentKeyed(store, k);
      SetBuyAllowedKeyed(c, i, buyAllowed);
      ReplaceCurrent(store, k, SetBuyAllowed(c, i, buyAllowed));
    }
  }

  /** Every operation keeps the invariant and what is no longer a draft. */
  lemma StepKeepsInv(store: Store, op: Op)
    requires Inv(store)
    ensures Apply(store, op).Ok? ==> Inv(Apply(store, op).value) && Frozen(store, Apply(store, op).value)
  {
    hide Inv, Frozen, Keyed, CreateFrom, SetContent, ValidateVersion, PublishVersion, PublishBuyAllowed, PutItem,
        DeleteItem;
    match op
    case Create(source) =>
      CreateKeeps(store, Current(store));
      if source.Some? && Known(store, source.value) { CreateKeeps(store, Some(source.value - 1)); }
    case Upsert(version, key, item) =>
      if UpsertResource(store, version, key, item).Ok? {
        ContentKeyed(store, version - 1);
        EditKeeps(store, version, PutItem(store[version - 1].content, item.value).value);
      }
    case Delete(version, key) =>
      if DeleteResource(store, version, key).Ok? {
        ContentKeyed(store, version - 1);
        DeleteKeepsKeyed(store[version - 1].content, key);
        EditKeeps(store, version, DeleteItem(store[version - 1].content, key).value);
      }
    case ReplaceSecurities(version, rows) =>
      if ReplaceAllSecurities(store, version, rows).Ok? {
        ContentKeyed(store, version - 1);
        ReplacedKeyed(store[version - 1].content, rows);
        EditKeeps(store, version, store[version - 1].content.(securities := rows));
      }
    case Validate(_) => StatusKeeps(store, op);
    case Publish(_) => StatusKeeps(store, op);
    case QuickPublish(marketCode, symbol, buyAllowed) => QuickPublishKeeps(store, marketCode, symbol, buyAllowed);
  }

  lemma ContentKeyed(store: Store, k: nat)
    requires Inv(store) && k < |store|
    ensures Keyed(store[k].content)
  {
  }

  lemma ReplacedKeyed(c: Config, rows: seq<SecurityRow>)
    requires Keyed(c) && DistinctBy(rows, SecurityPair)
    ensures Keyed(c.(securities := rows))
  {
  }

  /** In every run at most one version is published, and every version past its draft has no issues. */
  lemma {:induction false} EveryRunKeepsInv(ops: seq<Op>)
    ensures Inv(Run(ops))
  {
    if ops != [] {
      var front := ops[..|ops| - 1];
      EveryRunKeepsInv(front);
      StepKeepsInv(Run(front), ops[|ops| - 1]);
      hide Inv, Apply;
    } else {
      assert Run(ops) == [];
    }
  }

  /** Whatever is requested later, a version past its draft keeps its content. */
  lemma {:induction false} ContentNeverChanges(ops: seq<Op>, more: seq<Op>)
    ensures Frozen(Run(ops), Run(ops + more))
    decreases |more|
  {
    hide Apply, Inv, Frozen;
    if more == [] {
      assert ops + more == ops;
      FrozenSelf(Run(ops));
    } else {
      var front := more[..|more| - 1];
      ContentNeverChanges(ops, front);
      EveryRunKeepsInv(ops + front);
      StepKeepsInv(Run(ops + front), more[|more| - 1]);
      assert (ops + more)[..|ops + more| - 1] == ops + front;
      FrozenTransitive(Run(ops), Run(ops + front), Run(ops + more));
    }
  }

  lemma FrozenSelf(a: Store)
    ensures Frozen(a, a)
  {
  }

  lemma FrozenTransitive(a: Store, b: Store, c: Store)
    requires Frozen(a, b) && (Frozen(b, c) || b == c)
    ensures Frozen(a, c)
  {
  }
}

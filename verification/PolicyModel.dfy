/** The published trading policy: its records, the maps they are read into, and the reader. */
module PolicyModel {
  import opened Wrappers
  import opened Text

  datatype MarketRule = MarketRule(marketCode: string, enabled: bool)
  datatype ProductRule = ProductRule(code: string, active: bool, allowedMarkets: set<string>)
  datatype ProjectRule = ProjectRule(fundId: int, enabled: bool)
  datatype AccountRule = AccountRule(accountType: string, active: bool, productMarkets: map<string, set<string>>)
  datatype SecurityRule = SecurityRule(
    suspended: bool, buyAllowed: bool, sellAllowed: bool, cancelAllowed: bool, priceTick: real,
    buyUnit: int, sellUnit: int, maxQuantity: int, minQuantity: int, marketCode: string)

  datatype Policy = Policy(
    version: int, markets: map<string, MarketRule>, products: map<int, ProductRule>,
    projects: map<int, ProjectRule>, accounts: map<string, AccountRule>, securities: map<string, SecurityRule>)

  /** One line of the document, read on its own. Link fields stay text until all lines are in. */
  datatype Record =
    | Market(exchange: string, market: MarketRule)
    | Product(fundId: int, product: ProductRule)
    | Project(projectId: int, project: ProjectRule)
    | Account(accountId: string, accountType: string, active: bool)
    | Link(projectText: string, linkAccount: string, linkType: string, defaultText: string, fundText: string)
    | Security(symbol: string, security: SecurityRule)

  datatype Error =
    | UnsupportedHeader | MissingVersion | InvalidVersion
    | InvalidRecord(kind: string, line: nat) | UnknownRecord(line: nat)
    | InvalidLink | InconsistentLink | LinkWithoutMarket | SecurityWithoutMarket

  /** The maps filled so far and the links waiting for them. */
  datatype Draft = Draft(policy: Policy, links: seq<Record>)

  const HEADER := "QF_RUNTIME_POLICY\t1"

  function EmptyDraft(version: int): Draft {
    Draft(Policy(version, map[], map[], map[], map[], map[]), [])
  }

  function SecurityKey(marketCode: string, ticker: string): string {
    marketCode + ":" + ticker
  }

  /** The non-empty pieces of a comma list. */
  function MarketSet(text: string): set<string> {
    set m | m in Fields(text, ',') && m != ""
  }

  // ---------------------------------------------------------------- reading one line

  function Arity(kind: string): nat {
    if kind == "MARKET" || kind == "PROJECT" || kind == "ACCOUNT" then 4
    else if kind == "PRODUCT" then 5
    else if kind == "LINK" then 6
    else if kind == "SECURITY" then 12
    else 0
  }

  function ReadSecurity(f: seq<string>): Option<Record>
    requires |f| == 12
  {
    match (ParseBool(f[3]), ParseBool(f[4]), ParseBool(f[5]), ParseBool(f[6]), ParseDouble(f[7]))
    case (Some(suspended), Some(buy), Some(sell), Some(cancel), Some(tick)) => (
      match (ParseInt(f[8]), ParseInt(f[9]), ParseInt(f[10]), ParseInt(f[11]))
      case (Some(buyUnit), Some(sellUnit), Some(max), Some(min)) =>
        if f[1] == "" || f[2] == "" || tick <= 0.0 || buyUnit <= 0 || sellUnit <= 0 || max < 0 || min < 0
           || (max > 0 && min > max) then None
        else Some(Security(f[2], SecurityRule(suspended, buy, sell, cancel, tick, buyUnit, sellUnit, max, min, f[1])))
      case _ => None)
    case _ => None
  }

  function ReadRecord(f: seq<string>): Option<Record>
    requires f != []
  {
    if |f| != Arity(f[0]) then None
    else if f[0] == "MARKET" then (
      match ParseBool(f[3])
      case Some(enabled) => if f[1] == "" || f[2] == "" then None else Some(Market(f[2], MarketRule(f[1], enabled)))
      case None => None)
    else if f[0] == "PRODUCT" then (
      match ParseInt(f[1])
      case Some(fundId) =>
        if fundId <= 0 || f[2] == "" then None
        else Some(Product(fundId, ProductRule(f[2], f[3] == "1", MarketSet(f[4]))))
      case None => None)
    else if f[0] == "PROJECT" then (
      match (ParseInt(f[1]), ParseInt(f[2]), ParseBool(f[3]))
      case (Some(projectId), Some(fundId), Some(enabled)) =>
        if projectId <= 0 || fundId <= 0 then None else Some(Project(projectId, ProjectRule(fundId, enabled)))
      case _ => None)
    else if f[0] == "ACCOUNT" then (
      match ParseBool(f[3])
      case Some(active) => if f[1] == "" || f[2] == "" then None else Some(Account(f[1], f[2], active))
      case None => None)
    else if f[0] == "LINK" then Some(Link(f[1], f[2], f[3], f[4], f[5]))
    else ReadSecurity(f)
  }

  /** Enters a record; None when its key is taken. */
  function Add(d: Draft, r: Record): Option<Draft> {
    var p := d.policy;
    match r
    case Market(exchange, rule) =>
      if exchange in p.markets then None else Some(d.(policy := p.(markets := p.markets[exchange := rule])))
    case Product(fundId, rule) =>
      if fundId in p.products then None else Some(d.(policy := p.(products := p.products[fundId := rule])))
    case Project(projectId, rule) =>
      if projectId in p.projects then None else Some(d.(policy := p.(projects := p.projects[projectId := rule])))
    case Account(id, accountType, active) =>
      if id in p.accounts then None
      else Some(d.(policy := p.(accounts := p.accounts[id := AccountRule(accountType, active, map[])])))
    case Link(_, _, _, _, _) => Some(d.(links := d.links + [r]))
    case Security(symbol, rule) =>
      var key := SecurityKey(rule.marketCode, symbol);
      if key in p.securities then None else Some(d.(policy := p.(securities := p.securities[key := rule])))
  }

  function AddLine(d: Draft, line: string, number: nat): Result<Draft, Error> {
    if line == "" then Ok(d)
    else
      var f := Fields(line, '\t');
      if |f| != Arity(f[0]) then Err(UnknownRecord(number))
      else match ReadRecord(f)
        case None => Err(InvalidRecord(f[0], number))
        case Some(r) =>
          match Add(d, r)
          case None => Err(InvalidRecord(f[0], number))
          case Some(d') => Ok(d')
  }

  /** The record lines, numbered from 3, up to the first bad one. */
  function AddLines(version: int, lines: seq<string>): Result<Draft, Error> {
    if lines == [] then Ok(EmptyDraft(version))
    else match AddLines(version, lines[..|lines| - 1])
      case Err(e) => Err(e)
      case Ok(d) => AddLine(d, lines[|lines| - 1], |lines| + 2)
  }

  // ---------------------------------------------------------------- links and markets

  /** The link's project, product and account, when its text is well formed and they agree. */
  function LinkTarget(p: Policy, l: Record): Result<(int, int, bool), Error>
    requires l.Link?
  {
    match (ParseInt(l.projectText), ParseBool(l.defaultText), ParseInt(l.fundText))
    case (Some(projectId), Some(isDefault), Some(fundId)) =>
      if projectId !in p.projects || l.linkAccount !in p.accounts || fundId !in p.products
         || p.projects[projectId].fundId != fundId || p.accounts[l.linkAccount].accountType != l.linkType
      then Err(InconsistentLink)
      else Ok((projectId, fundId, isDefault && p.projects[projectId].enabled && p.products[fundId].active))
    case _ => Err(InvalidLink)
  }

  function AddLink(p: Policy, l: Record): Result<Policy, Error>
    requires l.Link?
  {
    match LinkTarget(p, l)
    case Err(e) => Err(e)
    case Ok((_, fundId, effective)) =>
      if !effective then Ok(p)
      else
        assert fundId in p.products && l.linkAccount in p.accounts;
        var product := p.products[fundId];
        if product.allowedMarkets == {} then Err(LinkWithoutMarket)
        else
          var account := p.accounts[l.linkAccount];
          if product.code in account.productMarkets then Ok(p)
          else Ok(p.(accounts := p.accounts[l.linkAccount :=
                 account.(productMarkets := account.productMarkets[product.code := product.allowedMarkets])]))
  }

  function AddLinks(p: Policy, links: seq<Record>): Result<Policy, Error>
    requires forall i :: 0 <= i < |links| ==> links[i].Link?
  {
    if links == [] then Ok(p)
    else match AddLinks(p, links[..|links| - 1])
      case Err(e) => Err(e)
      case Ok(q) => AddLink(q, links[|links| - 1])
  }

  predicate MarketListed(p: Policy, rule: SecurityRule) {
    exists e | e in p.markets :: p.markets[e].marketCode == rule.marketCode
  }

  predicate SecuritiesListed(p: Policy) {
    forall key | key in p.securities :: MarketListed(p, p.securities[key])
  }

  predicate LinksOnly(d: Draft) {
    forall i | 0 <= i < |d.links| :: d.links[i].Link?
  }

  function Finish(d: Draft): Result<Policy, Error>
    requires LinksOnly(d)
  {
    match AddLinks(d.policy, d.links)
    case Err(e) => Err(e)
    case Ok(p) => if SecuritiesListed(p) then Ok(p) else Err(SecurityWithoutMarket)
  }

  lemma LineKeepsLinks(d: Draft, line: string, number: nat)
    requires LinksOnly(d)
    ensures AddLine(d, line, number).Ok? ==> LinksOnly(AddLine(d, line, number).value)
  {
  }

  lemma {:induction false} LinesKeepLinks(version: int, lines: seq<string>)
    ensures AddLines(version, lines).Ok? ==> LinksOnly(AddLines(version, lines).value)
    decreases |lines|
  {
    if lines != [] {
      var rest := lines[..|lines| - 1];
      LinesKeepLinks(version, rest);
      if AddLines(version, rest).Ok? {
        LineKeepsLinks(AddLines(version, rest).value, lines[|lines| - 1], |lines| + 2);
      }
    }
  }

  function ReadVersion(line: string): Option<int> {
    var f := Fields(line, '\t');
    if |f| != 2 || f[0] != "VERSION" then None
    else match ParseInt(f[1])
      case Some(v) => if v <= 0 then None else Some(v)
      case None => None
  }

  /** What a document means: the policy, or why it is refused. */
  function ParseDocument(document: string): Result<Policy, Error> {
    var lines := Lines(document);
    if lines == [] || lines[0] != HEADER then Err(UnsupportedHeader)
    else if |lines| == 1 then Err(MissingVersion)
    else match ReadVersion(lines[1])
      case None => Err(InvalidVersion)
      case Some(version) =>
        LinesKeepLinks(version, lines[2..]);
        match AddLines(version, lines[2..])
        case Err(e) => Err(e)
        case Ok(d) => Finish(d)
  }

  // ---------------------------------------------------------------- admission

  datatype Refusal =
    | MarketDisabled | SecurityUnavailable | AccountInactive | ProductNotLinked | MarketNotAllowed
    | DirectionDisabled | DirectionUnknown | QuantityRule | TickRule | SecurityMissing | CancelDisabled

  const BUY: int := 1
  const SELL: int := 2

  function FindMarket(p: Policy, exchange: string): Option<MarketRule> {
    if exchange in p.markets then Some(p.markets[exchange]) else None
  }

  function FindSecurity(p: Policy, ticker: string, exchange: string): (r: Option<SecurityRule>)
    ensures r.Some? ==> exists key :: key in p.securities && p.securities[key] == r.value
  {
    match FindMarket(p, exchange)
    case None => None
    case Some(market) =>
      var key := SecurityKey(market.marketCode, ticker);
      if key in p.securities then Some(p.securities[key]) else None
  }

  function CanSubscribe(p: Policy, ticker: string, exchange: string): Option<Refusal> {
    var market := FindMarket(p, exchange);
    if market.None? || !market.value.enabled then Some(MarketDisabled)
    else
      var security := FindSecurity(p, ticker, exchange);
      if security.None? || security.value.suspended then Some(SecurityUnavailable) else None
  }

  /** Rounding half away from zero, for a non-negative argument. */
  function Round(x: real): int {
    (x + 0.5).Floor
  }

  function Abs(x: real): real { if x < 0.0 then -x else x }

  predicate QuantityFits(s: SecurityRule, direction: int, volume: int)
    requires s.buyUnit > 0 && s.sellUnit > 0
  {
    var unit := if direction == BUY then s.buyUnit else s.sellUnit;
    volume > 0 && volume % unit == 0
    && (s.minQuantity > 0 ==> volume >= s.minQuantity) && (s.maxQuantity > 0 ==> volume <= s.maxQuantity)
  }

  predicate PriceFits(s: SecurityRule, price: real)
    requires s.priceTick > 0.0
  {
    price > 0.0 && Abs(Round(price / s.priceTick) as real * s.priceTick - price) <= 0.0000001
  }

  predicate DirectionOpen(s: SecurityRule, direction: int) {
    (direction == BUY && s.buyAllowed) || (direction == SELL && s.sellAllowed)
  }

  predicate SoundSecurity(s: SecurityRule) {
    s.priceTick > 0.0 && s.buyUnit > 0 && s.sellUnit > 0
  }

  /** None when the order is admitted, otherwise the first rule it breaks. */
  function CanOrder(p: Policy, account: string, product: string, ticker: string, exchange: string,
                    direction: int, price: real, volume: int): Option<Refusal>
    requires forall key :: key in p.securities ==> SoundSecurity(p.securities[key])
  {
    var subscribe := CanSubscribe(p, ticker, exchange);
    if subscribe.Some? then subscribe
    else if account !in p.accounts || !p.accounts[account].active then Some(AccountInactive)
    else if product !in p.accounts[account].productMarkets then Some(ProductNotLinked)
    else
      var s := FindSecurity(p, ticker, exchange).value;
      assert SoundSecurity(s) by { var key :| key in p.securities && p.securities[key] == s; }
      if s.marketCode !in p.accounts[account].productMarkets[product] then Some(MarketNotAllowed)
      else if (direction == BUY && !s.buyAllowed) || (direction == SELL && !s.sellAllowed) then Some(DirectionDisabled)
      else if direction != BUY && direction != SELL then Some(DirectionUnknown)
      else if !QuantityFits(s, direction, volume) then Some(QuantityRule)
      else if !PriceFits(s, price) then Some(TickRule)
      else None
  }

  function CanCancel(p: Policy, account: string, product: string, ticker: string, exchange: string): Option<Refusal> {
    if account !in p.accounts || !p.accounts[account].active || p.accounts[account].productMarkets == map[]
    then Some(AccountInactive)
    else
      var market := FindMarket(p, exchange);
      if market.None? || !market.value.enabled then Some(MarketDisabled)
      else if product !in p.accounts[account].productMarkets
              || market.value.marketCode !in p.accounts[account].productMarkets[product] then Some(ProductNotLinked)
      else
        var security := FindSecurity(p, ticker, exchange);
        if security.None? then Some(SecurityMissing)
        else if !security.value.cancelAllowed then Some(CancelDisabled)
        else None
  }
}

/** What a line of the document says, what makes it valid, and acceptance and refusals in terms of the records. */
module PolicyRecords {
  import opened Wrappers
  import opened Text
  import opened PolicyModel
  import opened PolicyOrders
  import opened PolicyTheory

  // ---------------------------------------------------------------- one line

  /** The fields of a line name the record's kind and values, column by column. */
  ghost predicate FieldsSay(f: seq<string>, r: Record) {
    match r
    case Market(exchange, m) =>
      |f| == 4 && f[0] == "MARKET" && f[1] == m.marketCode && f[2] == exchange && ParseBool(f[3]) == Some(m.enabled)
    case Product(fundId, p) =>
      && |f| == 5 && f[0] == "PRODUCT" && ParseInt(f[1]) == Some(fundId) && f[2] == p.code
      && (p.active <==> f[3] == "1") && p.allowedMarkets == MarketSet(f[4])
    case Project(projectId, j) =>
      && |f| == 4 && f[0] == "PROJECT" && ParseInt(f[1]) == Some(projectId) && ParseInt(f[2]) == Some(j.fundId)
      && ParseBool(f[3]) == Some(j.enabled)
    case Account(accountId, accountType, active) =>
      |f| == 4 && f[0] == "ACCOUNT" && f[1] == accountId && f[2] == accountType && ParseBool(f[3]) == Some(active)
    case Link(projectText, linkAccount, linkType, defaultText, fundText) =>
      f == ["LINK", projectText, linkAccount, linkType, defaultText, fundText]
    case Security(symbol, s) =>
      && |f| == 12 && f[0] == "SECURITY" && f[1] == s.marketCode && f[2] == symbol
      && ParseBool(f[3]) == Some(s.suspended) && ParseBool(f[4]) == Some(s.buyAllowed)
      && ParseBool(f[5]) == Some(s.sellAllowed) && ParseBool(f[6]) == Some(s.cancelAllowed)
      && ParseDouble(f[7]) == Some(s.priceTick)
      && ParseInt(f[8]) == Some(s.buyUnit) && ParseInt(f[9]) == Some(s.sellUnit)
      && ParseInt(f[10]) == Some(s.maxQuantity) && ParseInt(f[11]) == Some(s.minQuantity)
  }

  /** Named and numbered, with positive units and ticks and limits in order. */
  predicate ValidRecord(r: Record) {
    match r
    case Market(exchange, m) => exchange != "" && m.marketCode != ""
    case Product(fundId, p) => fundId > 0 && p.code != ""
    case Project(projectId, j) => projectId > 0 && j.fundId > 0
    case Account(accountId, accountType, _) => accountId != "" && accountType != ""
    case Link(_, _, _, _, _) => true
    case Security(symbol, s) =>
      && symbol != "" && s.marketCode != "" && s.priceTick > 0.0 && s.buyUnit >= 1 && s.sellUnit >= 1
      && s.minQuantity >= 0 && s.maxQuantity >= 0 && (s.maxQuantity == 0 || s.minQuantity <= s.maxQuantity)
  }

  /** A line is read as a record if and only if its fields say that record and the record is valid. */
  lemma ReadRecordIff(f: seq<string>, r: Record)
    requires f != []
    ensures ReadRecord(f) == Some(r) <==> FieldsSay(f, r) && ValidRecord(r)
  {
    hide ParseInt, ParseDouble, ParseBool, MarketSet, ReadSecurity;
    if |f| == 12 { ReadSecurityIff(f, r); }
  }

  lemma ReadSecurityIff(f: seq<string>, r: Record)
    requires |f| == 12
    ensures f[0] == "SECURITY" ==> (ReadSecurity(f) == Some(r) <==> FieldsSay(f, r) && ValidRecord(r))
  {
    hide ParseInt, ParseDouble, ParseBool, MarketSet;
  }

  /** The first bad line is named: as unknown when its kind or its number of fields is, and as invalid when it
      cannot be read or its key is taken. */
  lemma {:induction false} FirstBadLine(version: int, lines: seq<string>) returns (i: nat)
    requires AddLines(version, lines).Err?
    ensures i < |lines| && AddLines(version, lines[..i]).Ok? && lines[i] != ""
    ensures var f, e := Fields(lines[i], '\t'), AddLines(version, lines).error;
      && (|f| != Arity(f[0]) ==> e == UnknownRecord(i + 3))
      && (|f| == Arity(f[0]) ==>
            && e == InvalidRecord(f[0], i + 3)
            && (ReadRecord(f).Some? ==> Add(AddLines(version, lines[..i]).value, ReadRecord(f).value).None?))
  {
    hide ReadRecord, Add, Fields, Arity;
    var front := lines[..|lines| - 1];
    if AddLines(version, front).Err? {
      i := FirstBadLine(version, front);
      assert lines[..i] == front[..i];
    } else {
      i := |lines| - 1;
    }
  }

  /** The kinds of line and the fields each has. */
  lemma ArityIs(kind: string)
    ensures Arity(kind) ==
      match kind
      case "MARKET" => 4
      case "PRODUCT" => 5
      case "PROJECT" => 4
      case "ACCOUNT" => 4
      case "LINK" => 6
      case "SECURITY" => 12
      case _ => 0
  {
  }

  // ---------------------------------------------------------------- acceptance

  /** The three records a link names, by their values. */
  ghost predicate LinkNames(rs: seq<Record>, l: Record, projectId: int, fundId: int, isDefault: bool, enabled: bool,
      active: bool, product: ProductRule)
    requires l.Link?
  {
    && ParseInt(l.projectText) == Some(projectId) && ParseInt(l.fundText) == Some(fundId)
    && ParseBool(l.defaultText) == Some(isDefault)
    && Project(projectId, ProjectRule(fundId, enabled)) in rs
    && Account(l.linkAccount, l.linkType, active) in rs && Product(fundId, product) in rs
  }

  /** A link whose numbers can be read and whose project, product and account are recorded and agree with it; in
      force, its product names a market. */
  ghost predicate SoundLinkIn(rs: seq<Record>, l: Record)
    requires l.Link?
  {
    exists projectId, fundId, isDefault, enabled, active, product ::
      && LinkNames(rs, l, projectId, fundId, isDefault, enabled, active, product)
      && (isDefault && enabled && product.active ==> product.allowedMarkets != {})
  }

  lemma OkIsNamed(d: Draft, rs: seq<Record>, l: Record)
    requires Mirrors(d, rs) && l.Link? && LinkOk(d.policy, l)
    ensures SoundLinkIn(rs, l)
  {
    hide ParseInt, ParseBool, Mirrors;
    var p := d.policy;
    var projectId, fundId := ParseInt(l.projectText).value, ParseInt(l.fundText).value;
    RecordedProject(d, rs, projectId);
    RecordedProduct(d, rs, fundId);
    RecordedAccount(d, rs, l.linkAccount);
    var j, a := p.projects[projectId], p.accounts[l.linkAccount];
    assert j == ProjectRule(fundId, j.enabled);
    assert LinkNames(rs, l, projectId, fundId, ParseBool(l.defaultText).value, j.enabled, a.active, p.products[fundId]);
  }

  lemma NamedIsOk(d: Draft, rs: seq<Record>, l: Record)
    requires Mirrors(d, rs) && l.Link? && SoundLinkIn(rs, l)
    ensures LinkOk(d.policy, l)
  {
    hide ParseInt, ParseBool;
    var projectId, fundId, isDefault, enabled, active, product :|
      && LinkNames(rs, l, projectId, fundId, isDefault, enabled, active, product)
      && (isDefault && enabled && product.active ==> product.allowedMarkets != {});
    assert Holds(d, Project(projectId, ProjectRule(fundId, enabled)));
    assert Holds(d, Account(l.linkAccount, l.linkType, active)) && Holds(d, Product(fundId, product));
  }

  lemma LinkOkIff(d: Draft, rs: seq<Record>, l: Record)
    requires Mirrors(d, rs) && l.Link?
    ensures LinkOk(d.policy, l) <==> SoundLinkIn(rs, l)
  {
    hide Mirrors, LinkOk, SoundLinkIn;
    if LinkOk(d.policy, l) { OkIsNamed(d, rs, l); }
    if SoundLinkIn(rs, l) { NamedIsOk(d, rs, l); }
  }

  lemma RecordedProject(d: Draft, rs: seq<Record>, id: int)
    requires Mirrors(d, rs)
    ensures id in d.policy.projects ==> Project(id, d.policy.projects[id]) in rs
  {
    if id in d.policy.projects {
      assert Taken(d.policy, ProjectKey(id));
      var r :| r in rs && KeyOf(r) == ProjectKey(id);
      assert Holds(d, r);
    }
  }

  lemma RecordedProduct(d: Draft, rs: seq<Record>, id: int)
    requires Mirrors(d, rs)
    ensures id in d.policy.products ==> Product(id, d.policy.products[id]) in rs
  {
    if id in d.policy.products {
      assert Taken(d.policy, ProductKey(id));
      var r :| r in rs && KeyOf(r) == ProductKey(id);
      assert Holds(d, r);
    }
  }

  lemma RecordedAccount(d: Draft, rs: seq<Record>, id: string)
    requires Mirrors(d, rs)
    ensures id in d.policy.accounts ==>
        Account(id, d.policy.accounts[id].accountType, d.policy.accounts[id].active) in rs
  {
    if id in d.policy.accounts {
      assert Taken(d.policy, AccountKey(id));
      var r :| r in rs && KeyOf(r) == AccountKey(id);
      assert Holds(d, r);
    }
  }

  lemma RecordedMarket(d: Draft, rs: seq<Record>, exchange: string)
    requires Mirrors(d, rs)
    ensures exchange in d.policy.markets ==> Market(exchange, d.policy.markets[exchange]) in rs
  {
    if exchange in d.policy.markets {
      assert Taken(d.policy, MarketKey(exchange));
      var r :| r in rs && KeyOf(r) == MarketKey(exchange);
      assert Holds(d, r);
    }
  }

  /** Every security's market is recorded, under any exchange. */
  ghost predicate MarketsRecorded(rs: seq<Record>) {
    forall r :: r in rs && r.Security? ==> MarketRecorded(rs, r.security.marketCode)
  }

  ghost predicate MarketRecorded(rs: seq<Record>, code: string) {
    exists m :: m in rs && m.Market? && m.market.marketCode == code
  }

  lemma ListedIff(d: Draft, rs: seq<Record>)
    requires Mirrors(d, rs)
    ensures SecuritiesListed(d.policy) <==> MarketsRecorded(rs)
  {
    var p := d.policy;
    if SecuritiesListed(p) {
      forall r | r in rs && r.Security? ensures MarketRecorded(rs, r.security.marketCode) {
        assert Holds(d, r);
        assert MarketListed(p, r.security);
        var e :| e in p.markets && p.markets[e].marketCode == r.security.marketCode;
        RecordedMarket(d, rs, e);
        assert Market(e, p.markets[e]) in rs;
      }
    }
    if MarketsRecorded(rs) {
      forall key | key in p.securities ensures MarketListed(p, p.securities[key]) {
        assert Taken(p, SecurityKeyed(key));
        var r :| r in rs && KeyOf(r) == SecurityKeyed(key);
        assert Holds(d, r);
        assert MarketRecorded(rs, r.security.marketCode);
        var m :| m in rs && m.Market? && m.market.marketCode == r.security.marketCode;
        assert Holds(d, m);
      }
    }
  }

  /** Records are accepted if and only if their keys are distinct, every link is sound among them and every
      security's market is among them. */
  lemma AcceptedIff(version: int, rs: seq<Record>)
    ensures Interpret(version, rs).Some? <==>
      DistinctKeys(rs) && (forall l :: l in rs && l.Link? ==> SoundLinkIn(rs, l)) && MarketsRecorded(rs)
  {
    InterpretIff(version, rs);
    hide Interpret, Mirrors, LinkOk, SoundLinkIn, SecuritiesListed, MarketsRecorded;
    if DistinctKeys(rs) {
      var d := AddAllSome(version, rs);
      ListedIff(d, rs);
      forall l | l in rs && l.Link? ensures LinkOk(d.policy, l) <==> SoundLinkIn(rs, l) { LinkOkIff(d, rs, l); }
    }
  }

  // ---------------------------------------------------------------- refusals

  ghost predicate MarketOpen(rs: seq<Record>, exchange: string) {
    exists code :: Market(exchange, MarketRule(code, true)) in rs
  }

  ghost predicate Listing(rs: seq<Record>, ticker: string, exchange: string, s: SecurityRule) {
    Market(exchange, MarketRule(s.marketCode, true)) in rs && Security(ticker, s) in rs
  }

  ghost predicate Linked(rs: seq<Record>, account: string, product: string) {
    exists markets :: LinkedTo(rs, account, product, markets)
  }

  ghost predicate LinkedFor(rs: seq<Record>, account: string, product: string, code: string) {
    exists markets :: LinkedTo(rs, account, product, markets) && code in markets
  }

  /** What the records object to first in an order, once the security is known. */
  ghost predicate Objects(rs: seq<Record>, account: string, product: string, s: SecurityRule, direction: int,
      price: real, volume: int, refusal: Option<Refusal>) {
    refusal ==
      if !ActiveAccount(rs, account) then Some(AccountInactive)
      else if !Linked(rs, account, product) then Some(ProductNotLinked)
      else if !LinkedFor(rs, account, product, s.marketCode) then Some(MarketNotAllowed)
      else if (direction == BUY && !s.buyAllowed) || (direction == SELL && !s.sellAllowed) then Some(DirectionDisabled)
      else if direction != BUY && direction != SELL then Some(DirectionUnknown)
      else if !LotsFit(s, direction, volume) then Some(QuantityRule)
      else if !(price > 0.0 && OnTick(price, s.priceTick)) then Some(TickRule)
      else None
  }

  ghost predicate LotsFit(s: SecurityRule, direction: int, volume: int) {
    && WholeLots(volume, if direction == BUY then s.buyUnit else s.sellUnit)
    && (s.minQuantity > 0 ==> s.minQuantity <= volume) && (s.maxQuantity > 0 ==> volume <= s.maxQuantity)
  }

  /** Markets as the records have them, beside what `Reflects` says. */
  ghost predicate MarketsReflected(rs: seq<Record>, q: Policy) {
    forall exchange, code :: FindMarket(q, exchange) == Some(MarketRule(code, true))
                             <==> Market(exchange, MarketRule(code, true)) in rs
  }

  lemma AcceptedMarkets(version: int, rs: seq<Record>)
    requires Interpret(version, rs).Some?
    ensures MarketsReflected(rs, Interpret(version, rs).value)
  {
    InterpretIff(version, rs);
    var d, q := AddAllSome(version, rs), Interpret(version, rs).value;
    hide Interpret, GrantsEntered;
    assert SameBase(d.policy, q);
    forall exchange, code ensures FindMarket(q, exchange) == Some(MarketRule(code, true))
                                  <==> Market(exchange, MarketRule(code, true)) in rs
    {
      RecordedMarket(d, rs, exchange);
      if Market(exchange, MarketRule(code, true)) in rs { assert Holds(d, Market(exchange, MarketRule(code, true))); }
    }
  }

  lemma LinkedIffEntered(rs: seq<Record>, q: Policy, account: string, product: string)
    requires Reflects(rs, q)
    ensures Linked(rs, account, product) <==> account in q.accounts && product in q.accounts[account].productMarkets
    ensures forall code :: LinkedFor(rs, account, product, code) <==>
        account in q.accounts && product in q.accounts[account].productMarkets
        && code in q.accounts[account].productMarkets[product]
  {
    if account in q.accounts && product in q.accounts[account].productMarkets {
      assert LinkedTo(rs, account, product, q.accounts[account].productMarkets[product]);
    }
  }

  lemma SubscribeRefusal(rs: seq<Record>, q: Policy, ticker: string, exchange: string)
    requires Reflects(rs, q) && KeysMatch(q) && MarketsReflected(rs, q) && SoundRecords(rs)
    ensures !MarketOpen(rs, exchange) ==> CanSubscribe(q, ticker, exchange) == Some(MarketDisabled)
    ensures MarketOpen(rs, exchange) && (forall s :: Listing(rs, ticker, exchange, s) ==> s.suspended) ==>
        CanSubscribe(q, ticker, exchange) == Some(SecurityUnavailable)
    ensures forall s :: Listing(rs, ticker, exchange, s) && !s.suspended ==>
        CanSubscribe(q, ticker, exchange) == None && FindSecurity(q, ticker, exchange) == Some(s)
  {
    hide FindSecurity, LinkedTo, ActiveAccount;
    KeysMatchAt(q, ticker, exchange);
    if market: string :| FindMarket(q, exchange) == Some(MarketRule(market, true)) {
      assert Market(exchange, MarketRule(market, true)) in rs;
    }
    forall s | Listing(rs, ticker, exchange, s) && !s.suspended ensures FindSecurity(q, ticker, exchange) == Some(s) {
      assert SoundSecurity(s);
      assert Tradable(rs, ticker, exchange, s);
    }
    if CanSubscribe(q, ticker, exchange) == None {
      var s := FindSecurity(q, ticker, exchange).value;
      assert SoundSecurity(s) by { var key :| key in q.securities && q.securities[key] == s; }
      assert FindMarket(q, exchange) == Some(MarketRule(s.marketCode, true));
      assert Tradable(rs, ticker, exchange, s);
      assert Listing(rs, ticker, exchange, s);
    }
  }

  /** After any accepted document an order is refused for the first thing the records object to: a market that is
      not open, a security not listed or suspended, then account, product, market, direction, lots and tick. */
  lemma OrderRefusal(version: int, rs: seq<Record>, account: string, product: string, ticker: string, exchange: string,
      direction: int, price: real, volume: int)
    requires Interpret(version, rs).Some? && ColonFree(rs) && SoundRecords(rs) && DistinctProductCodes(rs)
    ensures var q := Interpret(version, rs).value;
      && (forall key :: key in q.securities ==> SoundSecurity(q.securities[key]))
      && var refusal := CanOrder(q, account, product, ticker, exchange, direction, price, volume);
      && (!MarketOpen(rs, exchange) ==> refusal == Some(MarketDisabled))
      && (MarketOpen(rs, exchange) && (forall s :: Listing(rs, ticker, exchange, s) ==> s.suspended) ==>
            refusal == Some(SecurityUnavailable))
      && (forall s :: Listing(rs, ticker, exchange, s) && !s.suspended ==>
            Objects(rs, account, product, s, direction, price, volume, refusal))
  {
    AcceptedReflects(version, rs);
    AcceptedKeysMatch(version, rs);
    AcceptedMarkets(version, rs);
    var q := Interpret(version, rs).value;
    hide Interpret, Reflects, KeysMatch, MarketsReflected, Objects, ColonFree, DistinctProductCodes;
    hide CanOrder, CanSubscribe, Listing, MarketOpen;
    ReflectsSound(rs, q);
    SubscribeRefusal(rs, q, ticker, exchange);
    SubscribeFirst(q, account, product, ticker, exchange, direction, price, volume);
    forall s | Listing(rs, ticker, exchange, s) && !s.suspended
      ensures Objects(rs, account, product, s, direction, price, volume,
                      CanOrder(q, account, product, ticker, exchange, direction, price, volume))
    {
      KnownSecurityRefusal(rs, q, account, product, ticker, exchange, s, direction, price, volume);
    }
  }

  lemma ReflectsSound(rs: seq<Record>, q: Policy)
    requires Reflects(rs, q)
    ensures forall key :: key in q.securities ==> SoundSecurity(q.securities[key])
  {
  }

  lemma SubscribeFirst(q: Policy, account: string, product: string, ticker: string, exchange: string,
      direction: int, price: real, volume: int)
    requires forall key :: key in q.securities ==> SoundSecurity(q.securities[key])
    ensures CanSubscribe(q, ticker, exchange).Some? ==>
        CanOrder(q, account, product, ticker, exchange, direction, price, volume) == CanSubscribe(q, ticker, exchange)
  {
    hide CanSubscribe, QuantityFits, PriceFits;
  }

  lemma KnownSecurityRefusal(rs: seq<Record>, q: Policy, account: string, product: string, ticker: string,
      exchange: string, s: SecurityRule, direction: int, price: real, volume: int)
    requires forall key :: key in q.securities ==> SoundSecurity(q.securities[key])
    requires Reflects(rs, q) && FindSecurity(q, ticker, exchange) == Some(s)
    requires CanSubscribe(q, ticker, exchange) == None
    ensures Objects(rs, account, product, s, direction, price, volume,
                    CanOrder(q, account, product, ticker, exchange, direction, price, volume))
  {
    assert SoundSecurity(s) by { var key :| key in q.securities && q.securities[key] == s; }
    LinkedIffEntered(rs, q, account, product);
    QuantityFitsIff(s, direction, volume);
    PriceFitsIff(s, price);
    hide CanSubscribe, QuantityFits, PriceFits, WholeLots, OnTick, LinkedTo, Tradable, FindSecurity, Linked, LinkedFor;
  }

  /** What the records object to first in a cancel on an open market with this code. */
  ghost predicate CancelObjects(rs: seq<Record>, account: string, product: string, ticker: string, exchange: string,
      code: string, refusal: Option<Refusal>) {
    && (!LinkedFor(rs, account, product, code) ==> refusal == Some(ProductNotLinked))
    && (LinkedFor(rs, account, product, code) && (forall s :: Listing(rs, ticker, exchange, s) ==> s.marketCode != code)
        ==> refusal == Some(SecurityMissing))
    && (forall s :: LinkedFor(rs, account, product, code) && Listing(rs, ticker, exchange, s) && s.marketCode == code
          ==> refusal == if s.cancelAllowed then None else Some(CancelDisabled))
  }

  ghost predicate ListingsReflected(rs: seq<Record>, q: Policy) {
    forall ticker, exchange, s: SecurityRule ::
      Listing(rs, ticker, exchange, s)
      <==> (FindMarket(q, exchange) == Some(MarketRule(s.marketCode, true))
            && FindSecurity(q, ticker, exchange) == Some(s))
  }

  lemma AcceptedListings(version: int, rs: seq<Record>)
    requires Interpret(version, rs).Some? && ColonFree(rs)
    ensures ListingsReflected(rs, Interpret(version, rs).value)
  {
    InterpretIff(version, rs);
    var d, q := AddAllSome(version, rs), Interpret(version, rs).value;
    hide Interpret, Mirrors, ColonFree, FindMarket, FindSecurity;
    assert SameBase(d.policy, q);
    forall ticker, exchange, s: SecurityRule
      ensures Listing(rs, ticker, exchange, s)
          <==> (FindMarket(q, exchange) == Some(MarketRule(s.marketCode, true))
                && FindSecurity(q, ticker, exchange) == Some(s))
    {
      FoundSecurityIff(rs, d, q, ticker, exchange, s.marketCode, true, s);
    }
  }

  lemma AnyLink(rs: seq<Record>, q: Policy, account: string)
    requires Reflects(rs, q)
    ensures (exists product :: Linked(rs, account, product))
            <==> account in q.accounts && q.accounts[account].productMarkets != map[]
  {
    hide LinkedTo;
    if account in q.accounts && q.accounts[account].productMarkets != map[] {
      var product :| product in q.accounts[account].productMarkets;
      LinkedIffEntered(rs, q, account, product);
    }
    if product: string :| Linked(rs, account, product) { LinkedIffEntered(rs, q, account, product); }
  }

  /** After any accepted document a cancel is refused for the first thing the records object to: an account that is
      not active or has no product linked, a market that is not open, then product, security and permission. */
  lemma CancelRefusal(version: int, rs: seq<Record>, account: string, product: string, ticker: string, exchange: string)
    requires Interpret(version, rs).Some? && ColonFree(rs) && SoundRecords(rs) && DistinctProductCodes(rs)
    ensures var refusal := CanCancel(Interpret(version, rs).value, account, product, ticker, exchange);
      if !ActiveAccount(rs, account) || !(exists p :: Linked(rs, account, p)) then refusal == Some(AccountInactive)
      else if !MarketOpen(rs, exchange) then refusal == Some(MarketDisabled)
      else forall code :: Market(exchange, MarketRule(code, true)) in rs ==>
        CancelObjects(rs, account, product, ticker, exchange, code, refusal)
  {
    AcceptedReflects(version, rs);
    AcceptedKeysMatch(version, rs);
    AcceptedMarkets(version, rs);
    AcceptedListings(version, rs);
    var q := Interpret(version, rs).value;
    hide Interpret, ColonFree, DistinctProductCodes, SoundRecords;
    CancelRefusalIn(rs, q, account, product, ticker, exchange);
  }

  lemma CancelRefusalIn(rs: seq<Record>, q: Policy, account: string, product: string, ticker: string, exchange: string)
    requires Reflects(rs, q) && KeysMatch(q) && MarketsReflected(rs, q) && ListingsReflected(rs, q)
    ensures var refusal := CanCancel(q, account, product, ticker, exchange);
      if !ActiveAccount(rs, account) || !(exists p :: Linked(rs, account, p)) then refusal == Some(AccountInactive)
      else if !MarketOpen(rs, exchange) then refusal == Some(MarketDisabled)
      else forall code :: Market(exchange, MarketRule(code, true)) in rs ==>
        CancelObjects(rs, account, product, ticker, exchange, code, refusal)
  {
    AnyLink(rs, q, account);
    LinkedIffEntered(rs, q, account, product);
    KeysMatchAt(q, ticker, exchange);
    hide KeysMatch, FindSecurity, FindMarket, LinkedTo, Linked, LinkedFor, Listing, Tradable, ActiveAccount;
    var market := FindMarket(q, exchange);
    if market.Some? && market.value.enabled {
      assert market == Some(MarketRule(market.value.marketCode, true));
      assert Market(exchange, MarketRule(market.value.marketCode, true)) in rs;
    }
  }
}

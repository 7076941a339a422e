/** When a list of records is accepted, what the policy then holds, and that their order is irrelevant. */
module PolicyTheory {
  import opened Wrappers
  import opened Text
  import opened PolicyModel
  import opened PolicyOrders

  /** The records entered one after another; None at the first taken key. */
  function AddAll(version: int, rs: seq<Record>): Option<Draft> {
    if rs == [] then Some(EmptyDraft(version))
    else match AddAll(version, rs[..|rs| - 1])
      case None => None
      case Some(d) => Add(d, rs[|rs| - 1])
  }

  datatype Key = MarketKey(e: string) | ProductKey(id: int) | ProjectKey(id: int) | AccountKey(a: string)
               | SecurityKeyed(k: string) | NoKey

  function KeyOf(r: Record): Key {
    match r
    case Market(e, _) => MarketKey(e)
    case Product(id, _) => ProductKey(id)
    case Project(id, _) => ProjectKey(id)
    case Account(a, _, _) => AccountKey(a)
    case Security(symbol, rule) => SecurityKeyed(SecurityKey(rule.marketCode, symbol))
    case Link(_, _, _, _, _) => NoKey
  }

  ghost predicate DistinctKeys(rs: seq<Record>) {
    forall i, j :: 0 <= i < j < |rs| && KeyOf(rs[i]) == KeyOf(rs[j]) ==> rs[i].Link?
  }

  predicate Taken(p: Policy, k: Key) {
    match k
    case MarketKey(e) => e in p.markets
    case ProductKey(id) => id in p.products
    case ProjectKey(id) => id in p.projects
    case AccountKey(a) => a in p.accounts
    case SecurityKeyed(key) => key in p.securities
    case NoKey => false
  }

  predicate Holds(d: Draft, r: Record) {
    var p := d.policy;
    match r
    case Market(e, rule) => e in p.markets && p.markets[e] == rule
    case Product(id, rule) => id in p.products && p.products[id] == rule
    case Project(id, rule) => id in p.projects && p.projects[id] == rule
    case Account(a, t, active) => a in p.accounts && p.accounts[a] == AccountRule(t, active, map[])
    case Security(symbol, rule) =>
      var key := SecurityKey(rule.marketCode, symbol); key in p.securities && p.securities[key] == rule
    case Link(_, _, _, _, _) => r in d.links
  }

  /** The maps hold exactly the records, and the waiting links are the link records. */
  ghost predicate Mirrors(d: Draft, rs: seq<Record>) {
    && LinksOnly(d)
    && (forall r :: r in rs ==> Holds(d, r))
    && (forall k :: Taken(d.policy, k) ==> exists r :: r in rs && KeyOf(r) == k)
    && (forall l :: l in d.links ==> l in rs)
  }

  lemma NothingMirrored(version: int)
    ensures AddAll(version, []) == Some(EmptyDraft(version)) && Mirrors(EmptyDraft(version), []) && DistinctKeys([])
  {
  }

  lemma RepeatedStays(front: seq<Record>, r: Record)
    requires !DistinctKeys(front)
    ensures !DistinctKeys(front + [r])
  {
    var rs := front + [r];
    var i, j :| 0 <= i < j < |front| && KeyOf(front[i]) == KeyOf(front[j]) && !front[i].Link?;
    assert rs[i] == front[i] && rs[j] == front[j];
  }

  /** Entering works if and only if the keys are distinct, and then the maps hold exactly the records. */
  lemma {:induction false} AddAllIff(version: int, rs: seq<Record>)
    ensures AddAll(version, rs).Some? <==> DistinctKeys(rs)
    ensures AddAll(version, rs).Some?
        ==> Mirrors(AddAll(version, rs).value, rs) && AddAll(version, rs).value.policy.version == version
  {
    hide Add, KeyOf, Mirrors, DistinctKeys;
    NothingMirrored(version);
    if rs != [] {
      var front, r := rs[..|rs| - 1], rs[|rs| - 1];
      AddAllIff(version, front);
      assert rs == front + [r];
      if AddAll(version, front).Some? {
        AddOne(AddAll(version, front).value, front, r);
        DistinctAppend(front, r);
      } else {
        RepeatedStays(front, r);
      }
    }
  }

  lemma DistinctAppend(front: seq<Record>, r: Record)
    requires DistinctKeys(front)
    ensures DistinctKeys(front + [r]) <==> (r.Link? || forall q :: q in front ==> KeyOf(q) != KeyOf(r))
  {
    var rs := front + [r];
    assert forall i :: 0 <= i < |front| ==> rs[i] == front[i];
    if !r.Link? && exists q :: q in front && KeyOf(q) == KeyOf(r) {
      var q :| q in front && KeyOf(q) == KeyOf(r);
      var i :| 0 <= i < |front| && front[i] == q;
      assert KeyOf(rs[i]) == KeyOf(rs[|front|]);
    }
  }

  lemma AddOne(d: Draft, front: seq<Record>, r: Record)
    requires Mirrors(d, front)
    ensures Add(d, r).Some? <==> (r.Link? || forall q :: q in front ==> KeyOf(q) != KeyOf(r))
    ensures Add(d, r).Some?
        ==> Mirrors(Add(d, r).value, front + [r]) && Add(d, r).value.policy.version == d.policy.version
  {
    assert Add(d, r).Some? <==> !Taken(d.policy, KeyOf(r));
    forall q | q in front ensures KeyOf(q) == KeyOf(r) ==> q.Link? || Taken(d.policy, KeyOf(r)) { assert Holds(d, q); }
    if Add(d, r).Some? {
      var d' := Add(d, r).value;
      forall q | q in front + [r] ensures Holds(d', q) { if q in front { assert Holds(d, q); } }
      forall k | Taken(d'.policy, k) ensures exists q :: q in front + [r] && KeyOf(q) == k {
        if Taken(d.policy, k) {
          var q :| q in front && KeyOf(q) == k;
          assert q in front + [r];
        } else {
          assert r in front + [r] && KeyOf(r) == k;
        }
      }
    }
  }

  // ---------------------------------------------------------------- links

  /** The two policies differ at most in the product markets of their accounts. */
  ghost predicate SameBase(p: Policy, q: Policy) {
    && p.version == q.version && p.markets == q.markets && p.products == q.products
    && p.projects == q.projects && p.securities == q.securities && p.accounts.Keys == q.accounts.Keys
    && (forall a :: a in p.accounts ==>
          p.accounts[a].accountType == q.accounts[a].accountType && p.accounts[a].active == q.accounts[a].active)
  }

  predicate LinkOk(p: Policy, l: Record)
    requires l.Link?
  {
    match LinkTarget(p, l)
    case Err(_) => false
    case Ok((_, fundId, effective)) => effective ==> p.products[fundId].allowedMarkets != {}
  }

  /** The link is in force and gives its account the product with these markets. */
  predicate GrantedBy(p: Policy, l: Record, a: string, code: string, markets: set<string>) {
    l.Link? && l.linkAccount == a &&
    match LinkTarget(p, l)
    case Err(_) => false
    case Ok((_, fundId, effective)) =>
      effective && p.products[fundId].code == code && p.products[fundId].allowedMarkets == markets
  }

  ghost predicate Granted(p: Policy, links: seq<Record>, a: string, code: string, markets: set<string>) {
    exists i :: 0 <= i < |links| && GrantedBy(p, links[i], a, code, markets)
  }

  /** `q` is `p` with exactly the granted product markets entered. */
  ghost predicate GrantsEntered(p: Policy, links: seq<Record>, q: Policy) {
    && SameBase(p, q)
    && (forall a, code :: a in q.accounts && code in q.accounts[a].productMarkets ==>
          Granted(p, links, a, code, q.accounts[a].productMarkets[code]))
    && (forall a, code, markets :: Granted(p, links, a, code, markets) ==>
          a in q.accounts && code in q.accounts[a].productMarkets)
  }

  lemma GrantedAppend(p: Policy, front: seq<Record>, l: Record, a: string, code: string, markets: set<string>)
    ensures Granted(p, front + [l], a, code, markets)
        <==> Granted(p, front, a, code, markets) || GrantedBy(p, l, a, code, markets)
  {
    var links := front + [l];
    if Granted(p, front, a, code, markets) {
      var i :| 0 <= i < |front| && GrantedBy(p, front[i], a, code, markets);
      assert links[i] == front[i];
    }
    if GrantedBy(p, l, a, code, markets) { assert links[|front|] == l; }
  }

  lemma AddLinkEnters(p: Policy, front: seq<Record>, q: Policy, l: Record)
    requires l.Link? && GrantsEntered(p, front, q)
    ensures AddLink(q, l).Ok? <==> LinkOk(p, l)
    ensures AddLink(q, l).Ok? ==> GrantsEntered(p, front + [l], AddLink(q, l).value)
  {
    hide ParseInt, ParseBool, Granted;
    assert LinkTarget(q, l) == LinkTarget(p, l);
    if AddLink(q, l).Ok? {
      var q' := AddLink(q, l).value;
      forall a, code | a in q'.accounts && code in q'.accounts[a].productMarkets
        ensures Granted(p, front + [l], a, code, q'.accounts[a].productMarkets[code])
      {
        GrantedAppend(p, front, l, a, code, q'.accounts[a].productMarkets[code]);
      }
      forall a, code, markets | Granted(p, front + [l], a, code, markets)
        ensures a in q'.accounts && code in q'.accounts[a].productMarkets
      {
        GrantedAppend(p, front, l, a, code, markets);
      }
    }
  }

  ghost predicate NoGrants(p: Policy) {
    forall a :: a in p.accounts ==> p.accounts[a].productMarkets == map[]
  }

  ghost predicate AllLinks(links: seq<Record>) {
    forall i :: 0 <= i < |links| ==> links[i].Link?
  }

  /** The links are accepted if and only if each of them is sound on its own. */
  lemma {:induction false} AddLinksIff(p: Policy, links: seq<Record>)
    requires NoGrants(p) && AllLinks(links)
    ensures AddLinks(p, links).Ok? <==> forall i :: 0 <= i < |links| ==> LinkOk(p, links[i])
    ensures AddLinks(p, links).Ok? ==> GrantsEntered(p, links, AddLinks(p, links).value)
  {
    if links != [] {
      var front, l := links[..|links| - 1], links[|links| - 1];
      assert links == front + [l];
      AddLinksIff(p, front);
      if AddLinks(p, front).Ok? {
        AddLinkEnters(p, front, AddLinks(p, front).value, l);
        assert forall i :: 0 <= i < |front| ==> links[i] == front[i];
      } else {
        var i :| 0 <= i < |front| && !LinkOk(p, front[i]);
        assert links[i] == front[i];
      }
    }
  }

  // ---------------------------------------------------------------- whole documents

  /** The policy a list of records stands for, when it is accepted. */
  function Interpret(version: int, rs: seq<Record>): Option<Policy> {
    AddAllKeepsLinks(version, rs);
    match AddAll(version, rs)
    case None => None
    case Some(d) => (match Finish(d) case Ok(p) => Some(p) case Err(_) => None)
  }

  lemma AddAllKeepsLinks(version: int, rs: seq<Record>)
    ensures AddAll(version, rs).Some? ==> LinksOnly(AddAll(version, rs).value)
  {
  }

  /** What a document must satisfy to be accepted: distinct keys, sound links, listed markets. */
  ghost predicate Acceptable(version: int, rs: seq<Record>) {
    && DistinctKeys(rs)
    && var p := AddAllSome(version, rs).policy;
    && (forall l :: l in rs && l.Link? ==> LinkOk(p, l))
    && SecuritiesListed(p)
  }

  ghost function AddAllSome(version: int, rs: seq<Record>): (d: Draft)
    requires DistinctKeys(rs)
    ensures AddAll(version, rs) == Some(d) && Mirrors(d, rs) && d.policy.version == version
  {
    AddAllIff(version, rs);
    AddAll(version, rs).value
  }

  lemma MirroredHasNoGrants(d: Draft, rs: seq<Record>)
    requires Mirrors(d, rs)
    ensures NoGrants(d.policy)
  {
    forall a | a in d.policy.accounts ensures d.policy.accounts[a].productMarkets == map[] {
      assert Taken(d.policy, AccountKey(a));
      var r :| r in rs && KeyOf(r) == AccountKey(a);
      assert Holds(d, r);
    }
  }

  /** A list of records is accepted if and only if it is acceptable; the policy is then the
      records' maps with exactly the granted product markets. */
  lemma InterpretIff(version: int, rs: seq<Record>)
    ensures Interpret(version, rs).Some? <==> Acceptable(version, rs)
    ensures Interpret(version, rs).Some? ==>
      var d := AddAllSome(version, rs); GrantsEntered(d.policy, d.links, Interpret(version, rs).value)
  {
    AddAllIff(version, rs);
    if DistinctKeys(rs) {
      var d := AddAllSome(version, rs);
      MirroredHasNoGrants(d, rs);
      AddLinksIff(d.policy, d.links);
      assert (forall l :: l in rs && l.Link? ==> LinkOk(d.policy, l))
          <==> (forall i :: 0 <= i < |d.links| ==> LinkOk(d.policy, d.links[i])) by {
        forall l | l in rs && l.Link? ensures l in d.links { assert Holds(d, l); }
        forall i | 0 <= i < |d.links| ensures d.links[i] in rs && d.links[i].Link? {}
      }
      if AddLinks(d.policy, d.links).Ok? {
        var q := AddLinks(d.policy, d.links).value;
        SameListing(d.policy, q);
      }
    }
  }

  lemma SameListing(p: Policy, q: Policy)
    requires SameBase(p, q)
    ensures SecuritiesListed(p) <==> SecuritiesListed(q)
  {
  }

  // ---------------------------------------------------------------- order of the records

  ghost predicate DistinctCodes(p: Policy) {
    forall i, j :: i in p.products && j in p.products && p.products[i].code == p.products[j].code ==> i == j
  }

  /** Under distinct codes a product market can be granted in one way only. */
  lemma GrantUnique(p: Policy, links: seq<Record>, a: string, code: string, m: set<string>, m': set<string>)
    requires DistinctCodes(p) && Granted(p, links, a, code, m) && Granted(p, links, a, code, m')
    ensures m == m'
  {
  }

  lemma GrantsDetermine(p: Policy, links: seq<Record>, links': seq<Record>, q: Policy, q': Policy)
    requires DistinctCodes(p) && (forall l :: l in links <==> l in links')
    requires GrantsEntered(p, links, q) && GrantsEntered(p, links', q')
    ensures q == q'
  {
    forall a | a in q.accounts ensures q.accounts[a] == q'.accounts[a] {
      AccountGrantsDetermine(p, links, links', q, q', a);
    }
    assert q.accounts == q'.accounts;
  }

  lemma AccountGrantsDetermine(p: Policy, links: seq<Record>, links': seq<Record>, q: Policy, q': Policy, a: string)
    requires DistinctCodes(p) && (forall l :: l in links <==> l in links')
    requires GrantsEntered(p, links, q) && GrantsEntered(p, links', q') && a in q.accounts
    ensures a in q'.accounts && q.accounts[a].productMarkets == q'.accounts[a].productMarkets
  {
    hide Granted;
    var m, m' := q.accounts[a].productMarkets, q'.accounts[a].productMarkets;
    forall code | code in m ensures code in m' && m[code] == m'[code] {
      GrantedTransfer(p, links, links', a, code, m[code]);
      GrantUnique(p, links', a, code, m[code], m'[code]);
    }
    forall code | code in m' ensures code in m {
      GrantedTransfer(p, links', links, a, code, m'[code]);
    }
    assert m.Keys == m'.Keys;
  }

  lemma GrantedTransfer(p: Policy, links: seq<Record>, links': seq<Record>, a: string, code: string, m: set<string>)
    requires (forall l :: l in links ==> l in links') && Granted(p, links, a, code, m)
    ensures Granted(p, links', a, code, m)
  {
    var i :| 0 <= i < |links| && GrantedBy(p, links[i], a, code, m);
    assert links[i] in links';
  }

  lemma SameRecordsSameBase(d: Draft, rs: seq<Record>, d': Draft, rs': seq<Record>)
    requires Mirrors(d, rs) && Mirrors(d', rs') && d.policy.version == d'.policy.version
    requires forall r :: r in rs <==> r in rs'
    ensures d.policy == d'.policy
    ensures forall l :: l in d.links <==> l in d'.links
  {
    var p, p' := d.policy, d'.policy;
    SameTaken(d, rs, d', rs');
    SameKeys(p, p');
    forall e | e in p.markets ensures p.markets[e] == p'.markets[e] {
      assert Taken(p, MarketKey(e));
      var r :| r in rs && KeyOf(r) == MarketKey(e);
    }
    forall e | e in p.products ensures p.products[e] == p'.products[e] {
      assert Taken(p, ProductKey(e));
      var r :| r in rs && KeyOf(r) == ProductKey(e);
    }
    forall e | e in p.projects ensures p.projects[e] == p'.projects[e] {
      assert Taken(p, ProjectKey(e));
      var r :| r in rs && KeyOf(r) == ProjectKey(e);
    }
    forall e | e in p.accounts ensures p.accounts[e] == p'.accounts[e] {
      assert Taken(p, AccountKey(e));
      var r :| r in rs && KeyOf(r) == AccountKey(e);
    }
    forall e | e in p.securities ensures p.securities[e] == p'.securities[e] {
      assert Taken(p, SecurityKeyed(e));
      var r :| r in rs && KeyOf(r) == SecurityKeyed(e);
    }
    forall l ensures l in d.links <==> l in d'.links {
      if l in d.links { assert l.Link? && Holds(d', l); }
      if l in d'.links { assert l.Link? && Holds(d, l); }
    }
  }

  lemma SameTaken(d: Draft, rs: seq<Record>, d': Draft, rs': seq<Record>)
    requires Mirrors(d, rs) && Mirrors(d', rs') && forall r :: r in rs <==> r in rs'
    ensures forall k :: Taken(d.policy, k) <==> Taken(d'.policy, k)
  {
    hide Taken, KeyOf, Holds;
    forall k ensures Taken(d.policy, k) <==> Taken(d'.policy, k) {
      if Taken(d.policy, k) { var r :| r in rs && KeyOf(r) == k; TakenKey(d, d', r); }
      if Taken(d'.policy, k) { var r :| r in rs' && KeyOf(r) == k; TakenKey(d', d, r); }
    }
  }

  /** A key taken through a record is taken wherever the record is held. */
  lemma TakenKey(d: Draft, d': Draft, r: Record)
    requires Taken(d.policy, KeyOf(r)) && Holds(d', r)
    ensures Taken(d'.policy, KeyOf(r))
  {
  }

  lemma SameKeys(p: Policy, p': Policy)
    requires forall k :: Taken(p, k) <==> Taken(p', k)
    ensures p.markets.Keys == p'.markets.Keys && p.products.Keys == p'.products.Keys
    ensures p.projects.Keys == p'.projects.Keys && p.accounts.Keys == p'.accounts.Keys
    ensures p.securities.Keys == p'.securities.Keys
  {
    forall e ensures e in p.markets <==> e in p'.markets { assert Taken(p, MarketKey(e)) <==> Taken(p', MarketKey(e)); }
    forall e ensures e in p.products <==> e in p'.products {
      assert Taken(p, ProductKey(e)) <==> Taken(p', ProductKey(e));
    }
    forall e ensures e in p.projects <==> e in p'.projects {
      assert Taken(p, ProjectKey(e)) <==> Taken(p', ProjectKey(e));
    }
    forall e ensures e in p.accounts <==> e in p'.accounts {
      assert Taken(p, AccountKey(e)) <==> Taken(p', AccountKey(e));
    }
    forall e ensures e in p.securities <==> e in p'.securities {
      assert Taken(p, SecurityKeyed(e)) <==> Taken(p', SecurityKeyed(e));
    }
  }

  /** Distinct keys are a matter of the multiset of records. */
  lemma DistinctKeysPermute(rs: seq<Record>, rs': seq<Record>)
    requires multiset(rs) == multiset(rs') && DistinctKeys(rs)
    ensures DistinctKeys(rs')
  {
    forall i, j | 0 <= i < j < |rs'| && KeyOf(rs'[i]) == KeyOf(rs'[j]) ensures rs'[i].Link? {
      var x, y := rs'[i], rs'[j];
      assert x in multiset(rs') && y in multiset(rs');
      if !x.Link? {
        SameKeySameRecord(rs, x, y);
        OncePerKey(rs, x);
        TwiceInSeq(rs', i, j);
      }
    }
  }

  lemma SameKeySameRecord(rs: seq<Record>, x: Record, y: Record)
    requires DistinctKeys(rs) && x in rs && y in rs && KeyOf(x) == KeyOf(y) && !x.Link?
    ensures x == y
  {
  }

  lemma TwiceInSeq(rs: seq<Record>, i: nat, j: nat)
    requires i < j < |rs| && rs[i] == rs[j]
    ensures multiset(rs)[rs[i]] >= 2
  {
    assert rs == rs[..i] + [rs[i]] + rs[i + 1..j] + [rs[j]] + rs[j + 1..];
  }

  lemma OncePerKey(rs: seq<Record>, x: Record)
    requires DistinctKeys(rs) && x in rs && !x.Link?
    ensures multiset(rs)[x] == 1
  {
    var a :| 0 <= a < |rs| && rs[a] == x;
    var before, after := rs[..a], rs[a + 1..];
    assert rs == before + [x] + after;
    forall b | 0 <= b < |before| ensures before[b] != x { assert before[b] == rs[b]; }
    forall b | 0 <= b < |after| ensures after[b] != x { assert after[b] == rs[a + 1 + b]; }
    assert multiset(rs) == multiset(before) + multiset{x} + multiset(after);
  }

  /** Reordering the records of a document with distinct product codes changes nothing: it is
      accepted or refused alike, and the resulting policy is the same. */
  lemma OrderIsIrrelevant(version: int, rs: seq<Record>, rs': seq<Record>)
    requires multiset(rs) == multiset(rs')
    requires forall i, j :: 0 <= i < j < |rs| && rs[i].Product? && rs[j].Product? ==>
        rs[i].product.code != rs[j].product.code
    ensures Interpret(version, rs) == Interpret(version, rs')
  {
    InterpretIff(version, rs);
    InterpretIff(version, rs');
    if DistinctKeys(rs) { DistinctKeysPermute(rs, rs'); }
    if DistinctKeys(rs') { DistinctKeysPermute(rs', rs); }
    if DistinctKeys(rs) {
      var d, d' := AddAllSome(version, rs), AddAllSome(version, rs');
      forall r ensures r in rs <==> r in rs' { assert r in multiset(rs) <==> r in multiset(rs'); }
      SameRecordsSameBase(d, rs, d', rs');
      CodesDistinct(d, rs);
      if Acceptable(version, rs) {
        GrantsDetermine(d.policy, d.links, d'.links, Interpret(version, rs).value, Interpret(version, rs').value);
      }
    }
  }

  lemma CodesDistinct(d: Draft, rs: seq<Record>)
    requires Mirrors(d, rs)
    requires forall i, j :: 0 <= i < j < |rs| && rs[i].Product? && rs[j].Product? ==>
        rs[i].product.code != rs[j].product.code
    ensures DistinctCodes(d.policy)
  {
    var p := d.policy;
    forall i, j | i in p.products && j in p.products && p.products[i].code == p.products[j].code ensures i == j {
      assert Taken(p, ProductKey(i)) && Taken(p, ProductKey(j));
      var x :| x in rs && KeyOf(x) == ProductKey(i);
      var y :| y in rs && KeyOf(y) == ProductKey(j);
      assert Holds(d, x) && Holds(d, y);
      var a :| 0 <= a < |rs| && rs[a] == x;
      var b :| 0 <= b < |rs| && rs[b] == y;
    }
  }

  // ---------------------------------------------------------------- admission, in terms of the records

  /** A default link through an enabled project to an active product, as three records say it. */
  ghost predicate LinkedTo(rs: seq<Record>, account: string, product: string, markets: set<string>) {
    exists l, projectId, fundId ::
      && l in rs && l.Link? && l.linkAccount == account
      && ParseInt(l.projectText) == Some(projectId) && ParseBool(l.defaultText) == Some(true)
      && ParseInt(l.fundText) == Some(fundId)
      && Project(projectId, ProjectRule(fundId, true)) in rs
      && Product(fundId, ProductRule(product, true, markets)) in rs
  }

  ghost predicate Tradable(rs: seq<Record>, ticker: string, exchange: string, s: SecurityRule) {
    Market(exchange, MarketRule(s.marketCode, true)) in rs && Security(ticker, s) in rs && !s.suspended
        && SoundSecurity(s)
  }

  ghost predicate ActiveAccount(rs: seq<Record>, account: string) {
    exists t :: Account(account, t, true) in rs
  }

  ghost predicate Admits(rs: seq<Record>, account: string, product: string, ticker: string, exchange: string,
                         direction: int, price: real, volume: int) {
    ActiveAccount(rs, account) &&
    exists s, markets ::
      && Tradable(rs, ticker, exchange, s)
      && LinkedTo(rs, account, product, markets) && s.marketCode in markets
      && OrderFits(s, direction, price, volume)
  }

  ghost predicate ColonFree(rs: seq<Record>) {
    forall r :: r in rs ==>
      (r.Market? ==> Free(r.market.marketCode, ':')) && (r.Security? ==> Free(r.security.marketCode, ':'))
  }

  ghost predicate SoundRecords(rs: seq<Record>) {
    forall r :: r in rs && r.Security? ==> SoundSecurity(r.security)
  }

  ghost predicate DistinctProductCodes(rs: seq<Record>) {
    forall i, j :: 0 <= i < j < |rs| && rs[i].Product? && rs[j].Product? ==> rs[i].product.code != rs[j].product.code
  }

  lemma SecurityKeyInjective(m: string, t: string, m': string, t': string)
    requires Free(m, ':') && Free(m', ':') && SecurityKey(m, t) == SecurityKey(m', t')
    ensures m == m' && t == t'
  {
    var s := SecurityKey(m, t);
    assert s == m + [':'] + t && s == m' + [':'] + t';
    FindFirst(s, ':', m, t);
    FindFirst(s, ':', m', t');
  }

  lemma LinkedIsGranted(rs: seq<Record>, d: Draft, a: string, code: string, markets: set<string>)
    requires Mirrors(d, rs) && LinkedTo(rs, a, code, markets)
    requires forall l :: l in rs && l.Link? ==> LinkOk(d.policy, l)
    ensures Granted(d.policy, d.links, a, code, markets)
  {
  }

  /** The product markets of an account are what its effective links say. */
  lemma ProductMarketsIff(rs: seq<Record>, d: Draft, q: Policy, a: string, code: string, markets: set<string>)
    requires Mirrors(d, rs) && GrantsEntered(d.policy, d.links, q) && DistinctCodes(d.policy)
    requires forall l :: l in rs && l.Link? ==> LinkOk(d.policy, l)
    ensures (a in q.accounts && code in q.accounts[a].productMarkets && q.accounts[a].productMarkets[code] == markets)
            <==> LinkedTo(rs, a, code, markets)
  {
    if LinkedTo(rs, a, code, markets) {
      LinkedIsGranted(rs, d, a, code, markets);
      GrantUnique(d.policy, d.links, a, code, markets, q.accounts[a].productMarkets[code]);
    } else if a in q.accounts && code in q.accounts[a].productMarkets && q.accounts[a].productMarkets[code] == markets {
      var i :| 0 <= i < |d.links| && GrantedBy(d.policy, d.links[i], a, code, markets);
      GrantedIsLinked(rs, d, d.links[i], a, code, markets);
    }
  }

  lemma GrantedIsLinked(rs: seq<Record>, d: Draft, l: Record, a: string, code: string, markets: set<string>)
    requires Mirrors(d, rs) && l in d.links && GrantedBy(d.policy, l, a, code, markets)
    ensures LinkedTo(rs, a, code, markets)
  {
    var p := d.policy;
    var projectId, fundId := ParseInt(l.projectText).value, ParseInt(l.fundText).value;
    assert Taken(p, ProjectKey(projectId)) && Taken(p, ProductKey(fundId));
    var x :| x in rs && KeyOf(x) == ProjectKey(projectId);
    var y :| y in rs && KeyOf(y) == ProductKey(fundId);
    assert Holds(d, x) && Holds(d, y);
    assert x == Project(projectId, ProjectRule(fundId, true));
    assert y == Product(fundId, ProductRule(code, true, markets));
  }

  /** The security found for a ticker on an exchange is the one recorded for that exchange's market. */
  lemma FoundSecurityIff(rs: seq<Record>, d: Draft, q: Policy, ticker: string, exchange: string, code: string,
      enabled: bool, s: SecurityRule)
    requires Mirrors(d, rs) && SameBase(d.policy, q) && ColonFree(rs)
    ensures (FindMarket(q, exchange) == Some(MarketRule(code, enabled)) && FindSecurity(q, ticker, exchange) == Some(s))
            <==> (Market(exchange, MarketRule(code, enabled)) in rs && Security(ticker, s) in rs
                && s.marketCode == code)
  {
    var p := d.policy;
    if Market(exchange, MarketRule(code, enabled)) in rs && Security(ticker, s) in rs && s.marketCode == code {
      assert Holds(d, Market(exchange, MarketRule(code, enabled))) && Holds(d, Security(ticker, s));
    }
    if FindMarket(q, exchange) == Some(MarketRule(code, enabled)) && FindSecurity(q, ticker, exchange) == Some(s) {
      var key := SecurityKey(code, ticker);
      assert Taken(p, MarketKey(exchange)) && Taken(p, SecurityKeyed(key));
      var x :| x in rs && KeyOf(x) == MarketKey(exchange);
      var y :| y in rs && KeyOf(y) == SecurityKeyed(key);
      assert Holds(d, x) && Holds(d, y);
      SecurityKeyInjective(code, ticker, y.security.marketCode, y.symbol);
    }
  }

  lemma AccountIff(rs: seq<Record>, d: Draft, q: Policy, a: string)
    requires Mirrors(d, rs) && SameBase(d.policy, q)
    ensures (a in q.accounts && q.accounts[a].active) <==> ActiveAccount(rs, a)
  {
    if a in q.accounts && q.accounts[a].active {
      assert Taken(d.policy, AccountKey(a));
      var r :| r in rs && KeyOf(r) == AccountKey(a);
      assert Holds(d, r);
      assert Account(a, r.accountType, true) in rs;
    }
    if ActiveAccount(rs, a) {
      var t :| Account(a, t, true) in rs;
      assert Holds(d, Account(a, t, true));
    }
  }

  /** What the maps of an accepted document say, in the terms of its records. */
  ghost predicate Reflects(rs: seq<Record>, q: Policy) {
    && (forall key :: key in q.securities ==> SoundSecurity(q.securities[key]))
    && (forall a :: (a in q.accounts && q.accounts[a].active) <==> ActiveAccount(rs, a))
    && (forall a, code, markets ::
          (a in q.accounts && code in q.accounts[a].productMarkets && q.accounts[a].productMarkets[code] == markets)
          <==> LinkedTo(rs, a, code, markets))
    && (forall ticker, exchange, s: SecurityRule ::
          (FindMarket(q, exchange) == Some(MarketRule(s.marketCode, true))
                && FindSecurity(q, ticker, exchange) == Some(s)
           && !s.suspended && SoundSecurity(s))
          <==> Tradable(rs, ticker, exchange, s))
  }

  lemma AcceptedReflects(version: int, rs: seq<Record>)
    requires Interpret(version, rs).Some? && ColonFree(rs) && SoundRecords(rs) && DistinctProductCodes(rs)
    ensures Reflects(rs, Interpret(version, rs).value)
  {
    InterpretIff(version, rs);
    var d, q := AddAllSome(version, rs), Interpret(version, rs).value;
    CodesDistinct(d, rs);
    SecuritiesSound(rs, d);
    forall a ensures (a in q.accounts && q.accounts[a].active) <==> ActiveAccount(rs, a) { AccountIff(rs, d, q, a); }
    forall a, code, markets
      ensures (a in q.accounts && code in q.accounts[a].productMarkets && q.accounts[a].productMarkets[code] == markets)
          <==> LinkedTo(rs, a, code, markets)
    {
      ProductMarketsIff(rs, d, q, a, code, markets);
    }
    forall ticker, exchange, s: SecurityRule
      ensures (FindMarket(q, exchange) == Some(MarketRule(s.marketCode, true))
               && FindSecurity(q, ticker, exchange) == Some(s)
               && !s.suspended && SoundSecurity(s))
          <==> Tradable(rs, ticker, exchange, s)
    {
      FoundSecurityIff(rs, d, q, ticker, exchange, s.marketCode, true, s);
    }
  }

  /** The market a security is found under carries the security's own market code. */
  ghost predicate KeysMatch(q: Policy) {
    forall ticker, exchange :: FindSecurity(q, ticker, exchange).Some? ==>
      FindMarket(q, exchange).value.marketCode == FindSecurity(q, ticker, exchange).value.marketCode
  }

  lemma AcceptedKeysMatch(version: int, rs: seq<Record>)
    requires Interpret(version, rs).Some? && ColonFree(rs)
    ensures KeysMatch(Interpret(version, rs).value)
  {
    InterpretIff(version, rs);
    var d, q := AddAllSome(version, rs), Interpret(version, rs).value;
    forall ticker, exchange | FindSecurity(q, ticker, exchange).Some?
      ensures FindMarket(q, exchange).value.marketCode == FindSecurity(q, ticker, exchange).value.marketCode
    {
      var m, s := FindMarket(q, exchange).value, FindSecurity(q, ticker, exchange).value;
      FoundSecurityIff(rs, d, q, ticker, exchange, m.marketCode, m.enabled, s);
    }
  }

  lemma ReflectedAdmission(rs: seq<Record>, q: Policy, account: string, product: string, ticker: string,
      exchange: string, direction: int, price: real, volume: int)
    requires Reflects(rs, q) && KeysMatch(q)
    ensures CanOrder(q, account, product, ticker, exchange, direction, price, volume) == None
            <==> Admits(rs, account, product, ticker, exchange, direction, price, volume)
  {
    hide QuantityFits, PriceFits, DirectionOpen, OrderFits, WholeLots, OnTick;
    if CanOrder(q, account, product, ticker, exchange, direction, price, volume) == None {
      var s := FindSecurity(q, ticker, exchange).value;
      var markets := q.accounts[account].productMarkets[product];
      assert FindMarket(q, exchange).value.marketCode == s.marketCode;
      assert Tradable(rs, ticker, exchange, s) && LinkedTo(rs, account, product, markets);
      OrderFitsIff(s, direction, price, volume);
      OpenWhen(s, direction);
    }
    if Admits(rs, account, product, ticker, exchange, direction, price, volume) {
      var s: SecurityRule, markets :|
        && Tradable(rs, ticker, exchange, s)
        && LinkedTo(rs, account, product, markets) && s.marketCode in markets
        && OrderFits(s, direction, price, volume);
      assert FindSecurity(q, ticker, exchange) == Some(s);
      OrderFitsIff(s, direction, price, volume);
      OpenWhen(s, direction);
    }
  }

  /** An order is admitted if and only if the records say so. */
  lemma CanOrderIff(version: int, rs: seq<Record>, account: string, product: string, ticker: string, exchange: string,
                    direction: int, price: real, volume: int)
    requires Interpret(version, rs).Some? && ColonFree(rs) && SoundRecords(rs) && DistinctProductCodes(rs)
    ensures var q := Interpret(version, rs).value;
      && (forall key :: key in q.securities ==> SoundSecurity(q.securities[key]))
      && (CanOrder(q, account, product, ticker, exchange, direction, price, volume) == None
          <==> Admits(rs, account, product, ticker, exchange, direction, price, volume))
  {
    AcceptedReflects(version, rs);
    AcceptedKeysMatch(version, rs);
    ReflectedAdmission(rs, Interpret(version, rs).value, account, product, ticker, exchange, direction, price, volume);
  }

  /** A ticker may be subscribed to if and only if its exchange's market is enabled and the security is listed
      under that market and not suspended. */
  lemma CanSubscribeIff(version: int, rs: seq<Record>, ticker: string, exchange: string)
    requires Interpret(version, rs).Some? && ColonFree(rs)
    ensures CanSubscribe(Interpret(version, rs).value, ticker, exchange) == None <==>
      exists s: SecurityRule ::
        Market(exchange, MarketRule(s.marketCode, true)) in rs && Security(ticker, s) in rs && !s.suspended
  {
    InterpretIff(version, rs);
    AcceptedKeysMatch(version, rs);
    var d, q := AddAllSome(version, rs), Interpret(version, rs).value;
    hide Mirrors, GrantsEntered, KeysMatch, Interpret;
    forall s: SecurityRule ensures
      (FindMarket(q, exchange) == Some(MarketRule(s.marketCode, true)) && FindSecurity(q, ticker, exchange) == Some(s))
      <==> (Market(exchange, MarketRule(s.marketCode, true)) in rs && Security(ticker, s) in rs)
    {
      FoundSecurityIff(rs, d, q, ticker, exchange, s.marketCode, true, s);
    }
    KeysMatchAt(q, ticker, exchange);
    hide FindMarket, FindSecurity;
    if CanSubscribe(q, ticker, exchange) == None {
      var s := FindSecurity(q, ticker, exchange).value;
      assert FindMarket(q, exchange) == Some(MarketRule(s.marketCode, true));
    }
  }

  lemma KeysMatchAt(q: Policy, ticker: string, exchange: string)
    requires KeysMatch(q)
    ensures FindSecurity(q, ticker, exchange).Some? ==>
      FindMarket(q, exchange).Some?
          && FindMarket(q, exchange).value.marketCode == FindSecurity(q, ticker, exchange).value.marketCode
  {
  }

  /** The records allow a cancel: an active account, the product linked to it for the enabled market, and a
      security of that market that may be cancelled, suspended or not. */
  ghost predicate Cancels(rs: seq<Record>, account: string, product: string, ticker: string, exchange: string) {
    ActiveAccount(rs, account) &&
    exists s: SecurityRule, markets ::
      && Market(exchange, MarketRule(s.marketCode, true)) in rs && Security(ticker, s) in rs && s.cancelAllowed
      && LinkedTo(rs, account, product, markets) && s.marketCode in markets
  }

  /** A cancel is admitted if and only if the records say so. */
  lemma CanCancelIff(version: int, rs: seq<Record>, account: string, product: string, ticker: string, exchange: string)
    requires Interpret(version, rs).Some? && ColonFree(rs) && SoundRecords(rs) && DistinctProductCodes(rs)
    ensures CanCancel(Interpret(version, rs).value, account, product, ticker, exchange) == None
            <==> Cancels(rs, account, product, ticker, exchange)
  {
    InterpretIff(version, rs);
    AcceptedReflects(version, rs);
    AcceptedKeysMatch(version, rs);
    var d, q := AddAllSome(version, rs), Interpret(version, rs).value;
    hide Mirrors, GrantsEntered, KeysMatch, Interpret, LinkedTo, ActiveAccount, Tradable;
    forall s: SecurityRule ensures
      (FindMarket(q, exchange) == Some(MarketRule(s.marketCode, true)) && FindSecurity(q, ticker, exchange) == Some(s))
      <==> (Market(exchange, MarketRule(s.marketCode, true)) in rs && Security(ticker, s) in rs)
    {
      FoundSecurityIff(rs, d, q, ticker, exchange, s.marketCode, true, s);
    }
    KeysMatchAt(q, ticker, exchange);
    hide FindMarket, FindSecurity;
    if CanCancel(q, account, product, ticker, exchange) == None {
      var s := FindSecurity(q, ticker, exchange).value;
      var markets := q.accounts[account].productMarkets[product];
      assert FindMarket(q, exchange) == Some(MarketRule(s.marketCode, true));
      assert LinkedTo(rs, account, product, markets);
    }
    if Cancels(rs, account, product, ticker, exchange) {
      var s: SecurityRule, markets :|
        && Market(exchange, MarketRule(s.marketCode, true)) in rs && Security(ticker, s) in rs && s.cancelAllowed
        && LinkedTo(rs, account, product, markets) && s.marketCode in markets;
      assert FindSecurity(q, ticker, exchange) == Some(s);
    }
  }

  lemma SecuritiesSound(rs: seq<Record>, d: Draft)
    requires Mirrors(d, rs) && SoundRecords(rs)
    ensures forall key :: key in d.policy.securities ==> SoundSecurity(d.policy.securities[key])
  {
    forall key | key in d.policy.securities ensures SoundSecurity(d.policy.securities[key]) {
      assert Taken(d.policy, SecurityKeyed(key));
      var r :| r in rs && KeyOf(r) == SecurityKeyed(key);
      assert Holds(d, r);
    }
  }
}

/** From the control plane to the core: what a published version's document is worth. */
module ConfigPublication {
  import opened Wrappers
  import opened PolicyModel
  import opened PolicyTheory
  import opened PolicyConfig
  import opened PolicyValidator
  import opened PolicyAcceptance
  import opened ConfigVersions

  lemma KeyedIsUnique(c: Config)
    requires Keyed(c)
    ensures UniqueKeys(c)
  {
  }

  lemma DistinctFundCodes(c: Config)
    requires Keyed(c)
    ensures DistinctProductCodes(RecordsOf(Rows(c)))
  {
  }

  // ---------------------------------------------------------------- rows in another order

  lemma {:induction false} RecordsPermute(rows: seq<Row>, rows': seq<Row>)
    requires multiset(rows) == multiset(rows')
    ensures multiset(RecordsOf(rows)) == multiset(RecordsOf(rows'))
    decreases |rows|
  {
    hide RecordOf;
    if rows == [] {
      assert |multiset(rows')| == 0;
    } else {
      var front, row := rows[..|rows| - 1], rows[|rows| - 1];
      assert rows == front + [row];
      assert row in multiset(rows');
      var i :| 0 <= i < |rows'| && rows'[i] == row;
      var before, after := rows'[..i], rows'[i + 1..];
      assert rows' == before + [row] + after;
      TakeOut(front, row, before, after);
      RecordsPermute(front, before + after);
      FrontOfRows(front, row);
      SplitRecords(before, row, after);
      hide RecordOf, RecordsOf;
    }
  }

  lemma TakeOut<T>(front: seq<T>, x: T, before: seq<T>, after: seq<T>)
    requires multiset(front + [x]) == multiset(before + [x] + after)
    ensures multiset(front) == multiset(before + after)
  {
    assert multiset(front + [x]) == multiset(front) + multiset{x};
    assert multiset(before + [x] + after) == multiset(before + after) + multiset{x};
    assert multiset(front) == multiset(front + [x]) - multiset{x};
    assert multiset(before + after) == multiset(before + [x] + after) - multiset{x};
  }

  lemma SplitRecords(before: seq<Row>, row: Row, after: seq<Row>)
    ensures RecordsOf(before + [row] + after) == RecordsOf(before) + [RecordOf(row)] + RecordsOf(after)
    ensures RecordsOf(before + after) == RecordsOf(before) + RecordsOf(after)
  {
  }

  lemma SameMembers(rows: seq<Row>, rows': seq<Row>)
    requires multiset(rows) == multiset(rows')
    ensures AllReadable(rows) <==> AllReadable(rows')
    ensures AllConform(rows) <==> AllConform(rows')
  {
    forall row ensures row in rows <==> row in rows' { assert row in multiset(rows) <==> row in multiset(rows'); }
    hide Readable, Conforms;
    assert AllReadable(rows) <==> forall row :: row in rows ==> Readable(row);
    assert AllReadable(rows') <==> forall row :: row in rows' ==> Readable(row);
    assert AllConform(rows) <==> forall row :: row in rows ==> Conforms(row);
    assert AllConform(rows') <==> forall row :: row in rows' ==> Conforms(row);
  }

  /** The order in which a table's rows are printed makes no difference to the core. */
  lemma RowOrderIsIrrelevant(version: int, c: Config, rows: seq<Row>)
    requires Id(version) && Keyed(c) && AllConform(Rows(c)) && multiset(rows) == multiset(Rows(c))
    ensures ParseDocument(Render(version, rows)).Ok? <==> ParseDocument(Render(version, Rows(c))).Ok?
    ensures ParseDocument(Render(version, rows)).Ok?
        ==> ParseDocument(Render(version, rows)) == ParseDocument(Render(version, Rows(c)))
  {
    SameMembers(rows, Rows(c));
    RecordsPermute(rows, Rows(c));
    DistinctFundCodes(c);
    OrderIsIrrelevant(version, RecordsOf(Rows(c)), RecordsOf(rows));
    hide Keyed, Rows, ParseDocument, Interpret, AllConform, AllReadable;
    RenderThenParse(version, rows);
    RenderThenParse(version, Rows(c));
  }

  /** In every run of the control plane, a version past its draft prints, in any row order, to a
      document the core accepts if and only if the three conditions the validator omits hold. */
  lemma EveryCheckedVersionAcceptedIff(ops: seq<Op>, v: nat, rows: seq<Row>)
    requires v < |Run(ops)| && Run(ops)[v].status != DRAFT && Id(v + 1)
    requires var c := Run(ops)[v].content;
      AllConform(Rows(c)) && ColonFreeMarkets(c) && multiset(rows) == multiset(Rows(c))
    ensures var c := Run(ops)[v].content;
      ParseDocument(Render(v + 1, rows)).Ok? <==> DistinctExchanges(c) && BinaryStatuses(c) && DefaultsNameMarkets(c)
  {
    EveryRunKeepsInv(ops);
    var c := Run(ops)[v].content;
    assert Keyed(c) && Issues(c) == [];
    hide Run, Keyed, Issues, ParseDocument;
    KeyedIsUnique(c);
    SilentVersionAcceptedIff(v + 1, c);
    RowOrderIsIrrelevant(v + 1, c, rows);
  }

  // ---------------------------------------------------------------- published, yet refused

  ghost predicate Drafted(ops: seq<Op>, content: Config) { Run(ops) == [Version(DRAFT, content)] }

  lemma StartDraft() returns (ops: seq<Op>)
    ensures Drafted(ops, EMPTY)
  {
    ops := [] + [Create(None)];
    RunSnoc([], Create(None));
  }

  lemma PutFirst<T, K>(key: T -> K, row: T)
    ensures PutBy([], key, row) == [row]
  {
  }

  lemma PutSecond<T, K>(key: T -> K, first: T, row: T)
    requires key(first) != key(row)
    ensures PutBy([first], key, row) == [first, row]
  {
  }

  /** A request that adds or replaces a row of the only draft. */
  lemma PutInDraft(ops: seq<Op>, content: Config, item: Item, content': Config) returns (more: seq<Op>)
    requires Drafted(ops, content) && PutItem(content, item) == Some(content')
    ensures Drafted(more, content')
  {
    hide PutItem, Run;
    var op := Upsert(1, KeyOfItem(item), Some(item));
    more := ops + [op];
    RunSnoc(ops, op);
  }

  lemma PublishDraft(ops: seq<Op>, content: Config) returns (more: seq<Op>)
    requires Drafted(ops, content) && Issues(content) == []
    ensures Run(more) == [Version(PUBLISHED, content)]
  {
    hide Issues, Run;
    RunSnoc(ops, Validate(1));
    RunSnoc(ops + [Validate(1)], Publish(1));
    more := ops + [Validate(1)] + [Publish(1)];
  }

  /** Requests that publish two markets under one exchange code. */
  lemma SharedExchangePublished() returns (ops: seq<Op>)
    ensures Run(ops) == [Version(PUBLISHED, SharedExchange())]
    ensures ParseDocument(Render(1, Rows(SharedExchange()))).Err?
  {
    hide Run, Issues, ParseDocument, Render, Rows;
    SharedExchangeRefused(1);
    var a, b := MarketRow("A", "X", true, ""), MarketRow("B", "X", true, "");
    ops := StartDraft();
    var c := EMPTY.(markets := [a]);
    PutFirst(ConfigVersions.MarketKey, a);
    PutSecond(ConfigVersions.MarketKey, a, b);
    ops := PutInDraft(ops, EMPTY, MarketItem(a), c);
    ops := PutInDraft(ops, c, MarketItem(b), c.(markets := [a, b]));
    ops := PublishDraft(ops, c.(markets := [a, b]));
  }

  /** Requests that publish an account with status 2. */
  lemma OddStatusPublished() returns (ops: seq<Op>)
    ensures Run(ops) == [Version(PUBLISHED, OddStatus())]
    ensures ParseDocument(Render(1, Rows(OddStatus()))).Err?
  {
    hide Run, Issues, ParseDocument, Render, Rows;
    OddStatusRefused(1);
    var c := OddStatus();
    var c1 := EMPTY.(markets := c.markets);
    var c2 := c1.(colocations := c.colocations);
    ops := StartDraft();
    PutFirst(ConfigVersions.MarketKey, c.markets[0]);
    ops := PutInDraft(ops, EMPTY, MarketItem(c.markets[0]), c1);
    PutFirst(ConfigVersions.ColocationKey, c.colocations[0]);
    ops := PutInDraft(ops, c1, ColocationItem(c.colocations[0]), c2);
    PutFirst(ConfigVersions.AccountKey, c.accounts[0]);
    ops := PutInDraft(ops, c2, AccountItem(c.accounts[0]), c);
    ops := PublishDraft(ops, c);
  }

  /** Requests that publish a default link to an active product without markets. */
  lemma NoAllowedMarketPublished() returns (ops: seq<Op>)
    ensures Run(ops) == [Version(PUBLISHED, NoAllowedMarket())]
    ensures ParseDocument(Render(1, Rows(NoAllowedMarket()))).Err?
  {
    hide Run, Issues, ParseDocument, Render, Rows;
    NoAllowedMarketRefused(1);
    var c := NoAllowedMarket();
    var c1 := EMPTY.(markets := c.markets);
    var c2 := c1.(colocations := c.colocations);
    var c3 := c2.(products := c.products);
    var c4 := c3.(projects := c.projects);
    var c5 := c4.(accounts := c.accounts);
    ops := StartDraft();
    PutFirst(ConfigVersions.MarketKey, c.markets[0]);
    ops := PutInDraft(ops, EMPTY, MarketItem(c.markets[0]), c1);
    PutFirst(ConfigVersions.ColocationKey, c.colocations[0]);
    ops := PutInDraft(ops, c1, ColocationItem(c.colocations[0]), c2);
    PutFirst(ConfigVersions.ProductKey, c.products[0]);
    ops := PutInDraft(ops, c2, ProductItem(c.products[0]), c3);
    PutFirst(ConfigVersions.ProjectKey, c.projects[0]);
    ops := PutInDraft(ops, c3, ProjectItem(c.projects[0]), c4);
    PutFirst(ConfigVersions.AccountKey, c.accounts[0]);
    ops := PutInDraft(ops, c4, AccountItem(c.accounts[0]), c5);
    PutFirst(ConfigVersions.LinkKey, c.links[0]);
    ops := PutInDraft(ops, c5, LinkItem(c.links[0]), c);
    ops := PublishDraft(ops, c);
  }
}

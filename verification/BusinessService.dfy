/** The control plane's service object: its store is changed in place, one transaction a request. */
module BusinessService {
  import opened Wrappers
  import opened PolicyConfig
  import opened PolicyValidator
  import opened ConfigVersions

  /** The request took effect, or was rolled back for this reason. */
  predicate Outcome(before: Store, op: Op, failure: Option<Failure>, after: Store) {
    match failure
    case None => Apply(before, op) == Ok(after)
    case Some(e) => Apply(before, op) == Err(e) && after == before
  }

  class Service {
    var store: Store
    /** Every request made so far. */
    ghost var ops: seq<Op>

    /** The store is what the requests make of an empty one. */
    ghost predicate Valid()
      reads this
    {
      store == Run(ops)
    }

    constructor ()
      ensures Valid() && ops == []
    {
      store, ops := [], [];
    }

    method CreateVersion(source: Option<int>) returns (failure: Option<Failure>)
      modifies this`store
      ensures Outcome(old(store), Create(source), failure, store)
    {
      hide Current;
      var from: Option<nat> := None;
      if source.Some? {
        if !Known(store, source.value) {
          return Some(NotFound);
        }
        if store[source.value - 1].status !in {PUBLISHED, RETIRED} {
          return Some(NotCopyable);
        }
        from := Some(source.value - 1);
      } else {
        from := Current(store);
      }
      store := store + [Version(DRAFT, if from.Some? then store[from.value].content else EMPTY)];
      failure := None;
    }

    method UpsertResource(version: int, key: ItemKey, payload: Option<Item>) returns (failure: Option<Failure>)
      modifies this`store
      ensures Outcome(old(store), Upsert(version, key, payload), failure, store)
    {
      hide PutItem, KeyOfItem;
      failure := EnsureDraft(store, version);
      if failure.Some? {
        return;
      }
      if payload.None? {
        return Some(BadPayload);
      }
      if KeyOfItem(payload.value) != key {
        return Some(KeyDiffers);
      }
      var content := PutItem(store[version - 1].content, payload.value);
      if content.None? {
        return Some(Duplicate);
      }
      store := store[version - 1 := Version(DRAFT, content.value)];
    }

    method DeleteResource(version: int, key: ItemKey) returns (failure: Option<Failure>)
      modifies this`store
      ensures Outcome(old(store), Delete(version, key), failure, store)
    {
      hide DeleteItem;
      failure := EnsureDraft(store, version);
      if failure.Some? {
        return;
      }
      var content := DeleteItem(store[version - 1].content, key);
      if content.None? {
        return Some(ItemMissing);
      }
      store := store[version - 1 := Version(DRAFT, content.value)];
    }

    method ReplaceSecurities(version: int, securities: seq<SecurityRow>) returns (failure: Option<Failure>)
      modifies this`store
      ensures Outcome(old(store), Op.ReplaceSecurities(version, securities), failure, store)
    {
      failure := EnsureDraft(store, version);
      if failure.Some? {
        return;
      }
      var keys: set<(string, string)> := {};
      for i := 0 to |securities|
        invariant keys == set k | 0 <= k < i :: SecurityPair(securities[k])
        invariant DistinctBy(securities[..i], SecurityPair)
        invariant store == old(store)
      {
        var key := SecurityPair(securities[i]);
        if key in keys {
          assert !DistinctBy(securities, SecurityPair);
          return Some(DuplicateInput);
        }
        keys := keys + {key};
      }
      assert securities[..|securities|] == securities;
      store := store[version - 1 := Version(DRAFT, store[version - 1].content.(securities := securities))];
    }

    /** The issues found; a clean draft becomes validated. */
    method ValidateVersion(version: int) returns (failure: Option<Failure>, issues: seq<Issue>)
      modifies this`store
      ensures Outcome(old(store), Validate(version), failure, store)
      ensures failure.None? ==> issues == Issues(old(store)[version - 1].content)
    {
      hide Issues;
      failure, issues := None, [];
      if !Known(store, version) {
        failure := Some(NotFound);
        return;
      }
      if store[version - 1].status !in {DRAFT, VALIDATED} {
        failure := Some(NotCheckable);
        return;
      }
      issues := ValidationIssues(store[version - 1].content);
      if store[version - 1].status == DRAFT && issues == [] {
        store := store[version - 1 := store[version - 1].(status := VALIDATED)];
      }
    }

    /** Retires whatever is published. */
    method RetirePublished()
      modifies this`store
      ensures store == Retired(old(store))
    {
      for i := 0 to |store|
        invariant |store| == |old(store)|
        invariant forall k :: 0 <= k < i ==> store[k] == Retired(old(store))[k]
        invariant forall k :: i <= k < |store| ==> store[k] == old(store)[k]
      {
        if store[i].status == PUBLISHED {
          store := store[i := store[i].(status := RETIRED)];
        }
      }
    }

    method PublishVersion(version: int) returns (failure: Option<Failure>)
      modifies this`store
      ensures Outcome(old(store), Publish(version), failure, store)
    {
      hide Issues;
      if !Known(store, version) {
        return Some(NotFound);
      }
      if store[version - 1].status != VALIDATED {
        return Some(NotValidated);
      }
      var refused, issues := ValidateVersion(version);
      if issues != [] {
        return Some(Invalid(issues));
      }
      RetirePublished();
      store := store[version - 1 := store[version - 1].(status := PUBLISHED)];
      failure := None;
    }

    /** Copies the current version, changes one permission, validates the copy and publishes it. */
    method PublishSecurityBuyAllowed(marketCode: string, symbol: string, buyAllowed: bool)
        returns (failure: Option<Failure>)
      modifies this`store
      ensures Outcome(old(store), QuickPublish(marketCode, symbol, buyAllowed), failure, store)
    {
      hide Issues, Current, IndexBy;
      ghost var before := store;
      var source := Current(store);
      if source.None? {
        return Some(NoPublished);
      }
      var k := source.value;
      var refused := CreateVersion(Some(k + 1));
      var draft := |store|;
      var content := store[draft - 1].content;
      var i := IndexBy(content.securities, SecurityPair, (marketCode, symbol));
      if i.None? {
        store := store[..draft - 1];
        assert store == before;
        return Some(SecurityMissing);
      }
      store := store[draft - 1 := Version(DRAFT, SetBuyAllowed(content, i.value, buyAllowed))];
      var unchecked, issues := ValidateVersion(draft);
      if issues != [] {
        store := store[..draft - 1];
        assert store == before;
        return Some(Invalid(issues));
      }
      store := store[k := store[k].(status := RETIRED)];
      store := store[draft - 1 := store[draft - 1].(status := PUBLISHED)];
      assert store == before[k := before[k].(status := RETIRED)]
          + [Version(PUBLISHED, SetBuyAllowed(content, i.value, buyAllowed))];
      failure := None;
    }

    /** One request, committed or rolled back: the store stays the outcome of all requests, with at most
        one version published and every version past its draft checked and frozen. */
    method Request(op: Op) returns (failure: Option<Failure>)
      requires Valid()
      modifies this
      ensures Valid() && ops == old(ops) + [op]
      ensures Outcome(old(store), op, failure, store)
      ensures Inv(store) && Frozen(old(store), store)
    {
      hide Apply, Inv, Frozen, Run;
      match op {
        case Create(source) => failure := CreateVersion(source);
        case Upsert(version, key, item) => failure := UpsertResource(version, key, item);
        case Delete(version, key) => failure := DeleteResource(version, key);
        case ReplaceSecurities(version, rows) => failure := ReplaceSecurities(version, rows);
        case Validate(version) =>
          var issues;
          failure, issues := ValidateVersion(version);
        case Publish(version) => failure := PublishVersion(version);
        case QuickPublish(marketCode, symbol, buyAllowed) =>
          failure := PublishSecurityBuyAllowed(marketCode, symbol, buyAllowed);
      }
      RunSnoc(ops, op);
      ContentNeverChanges(ops, [op]);
      ops := ops + [op];
      EveryRunKeepsInv(ops);
    }
  }
}

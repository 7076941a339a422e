/** The policy object the core trades by, replaced as a whole by each accepted document. */
module RuntimePolicy {
  import opened Wrappers
  import opened Text
  import opened PolicyModel

  /** Successive `getline` calls on the document. */
  method ReadLines(document: string) returns (lines: seq<string>)
    ensures lines == Lines(document)
  {
    lines := Split(document, '\n');
    if lines[|lines| - 1] == "" {
      lines := lines[..|lines| - 1];
    }
  }

  lemma AddLinesStep(version: int, lines: seq<string>, i: nat)
    requires i < |lines|
    ensures AddLines(version, lines[..i + 1]) ==
      match AddLines(version, lines[..i]) case Err(e) => Err(e) case Ok(d) => AddLine(d, lines[i], i + 3)
  {
    assert lines[..i + 1][..i] == lines[..i];
  }

  lemma {:induction false} AddLinesFails(version: int, lines: seq<string>, i: nat)
    requires i <= |lines| && AddLines(version, lines[..i]).Err?
    ensures AddLines(version, lines) == AddLines(version, lines[..i])
    decreases |lines| - i
  {
    if i < |lines| {
      AddLinesStep(version, lines, i);
      AddLinesFails(version, lines, i + 1);
    } else {
      assert lines[..i] == lines;
    }
  }

  /** The record lines in turn, up to the first bad one. */
  method ReadBody(version: int, lines: seq<string>) returns (r: Result<Draft, Error>)
    ensures r == AddLines(version, lines)
  {
    hide ReadRecord, Add, Fields;
    var next := EmptyDraft(version);
    var lineNumber := 2;
    for i := 0 to |lines|
      invariant lineNumber == i + 2
      invariant AddLines(version, lines[..i]) == Ok(next)
    {
      var line := lines[i];
      lineNumber := lineNumber + 1;
      AddLinesStep(version, lines, i);
      if line != "" {
        var fields := Split(line, '\t');
        var failure: Option<Error> := None;
        if |fields| != Arity(fields[0]) {
          failure := Some(UnknownRecord(lineNumber));
        } else {
          var record := ReadRecord(fields);
          var entered := if record.Some? then Add(next, record.value) else None;
          if entered.Some? {
            next := entered.value;
          } else {
            failure := Some(InvalidRecord(fields[0], lineNumber));
          }
        }
        if failure.Some? {
          AddLinesFails(version, lines, i + 1);
          return Err(failure.value);
        }
      }
    }
    assert lines[..|lines|] == lines;
    r := Ok(next);
  }

  lemma {:induction false} AddLinksFails(p: Policy, links: seq<Record>, i: nat)
    requires (forall k :: 0 <= k < |links| ==> links[k].Link?) && i <= |links| && AddLinks(p, links[..i]).Err?
    ensures AddLinks(p, links) == AddLinks(p, links[..i])
    decreases |links| - i
  {
    if i < |links| {
      assert links[..i + 1][..i] == links[..i];
      AddLinksFails(p, links, i + 1);
    } else {
      assert links[..i] == links;
    }
  }

  /** The links, once every project, account and product is known. */
  method ResolveLinks(p: Policy, links: seq<Record>) returns (r: Result<Policy, Error>)
    requires forall k :: 0 <= k < |links| ==> links[k].Link?
    ensures r == AddLinks(p, links)
  {
    hide AddLink;
    var next := p;
    for i := 0 to |links|
      invariant AddLinks(p, links[..i]) == Ok(next)
    {
      assert links[..i + 1][..i] == links[..i];
      var step := AddLink(next, links[i]);
      if step.Err? {
        AddLinksFails(p, links, i + 1);
        return step;
      }
      next := step.value;
    }
    assert links[..|links|] == links;
    r := Ok(next);
  }

  /** Whether every security's market is listed. */
  method CheckSecurities(p: Policy) returns (ok: bool)
    ensures ok == SecuritiesListed(p)
  {
    var rest := p.securities.Keys;
    ghost var seen := {};
    while rest != {}
      invariant rest + seen == p.securities.Keys
      invariant forall key :: key in seen ==> key in p.securities && MarketListed(p, p.securities[key])
    {
      var key :| key in rest;
      if !MarketListed(p, p.securities[key]) {
        return false;
      }
      rest, seen := rest - {key}, seen + {key};
    }
    ok := true;
  }

  class Runtime {
    var policy: Policy

    constructor ()
      ensures policy == Policy(0, map[], map[], map[], map[], map[])
    {
      policy := Policy(0, map[], map[], map[], map[], map[]);
    }

    /** Replaces the policy by what the document means, or leaves it alone and says why. */
    method Parse(document: string) returns (error: Option<Error>)
      modifies this
      ensures ParseDocument(document) == match error case None => Ok(policy) case Some(e) => Err(e)
      ensures error.Some? ==> policy == old(policy)
    {
      hide AddLines, AddLinks, ReadVersion, SecuritiesListed;
      var lines := ReadLines(document);
      if lines == [] || lines[0] != HEADER {
        return Some(UnsupportedHeader);
      }
      if |lines| == 1 {
        return Some(MissingVersion);
      }
      var version := ReadVersion(lines[1]);
      if version.None? {
        return Some(InvalidVersion);
      }
      var body := ReadBody(version.value, lines[2..]);
      LinesKeepLinks(version.value, lines[2..]);
      if body.Err? {
        return Some(body.error);
      }
      var linked := ResolveLinks(body.value.policy, body.value.links);
      if linked.Err? {
        return Some(linked.error);
      }
      var listed := CheckSecurities(linked.value);
      if !listed {
        return Some(SecurityWithoutMarket);
      }
      policy := linked.value;
      error := None;
    }
  }
}

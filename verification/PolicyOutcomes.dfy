/** What becomes of any document: the policy it grants, or the first thing wrong with it. */
module PolicyOutcomes {
  import opened Wrappers
  import opened Text
  import opened PolicyModel
  import opened PolicyTheory
  import opened PolicyDocuments
  import opened PolicyRecords

  // ---------------------------------------------------------------- lines and head

  /** What is joined ends with its last piece, after a delimiter unless it is the only one. */
  lemma {:induction false} LastPiece(pieces: seq<string>, d: char)
    requires pieces != [] && forall i :: 0 <= i < |pieces| ==> Free(pieces[i], d)
    ensures var whole, last := Join(pieces, d), pieces[|pieces| - 1];
      && (whole == "" <==> pieces == [""])
      && (whole != "" ==> (whole[|whole| - 1] == d <==> last == ""))
  {
    if |pieces| > 1 {
      var rest := pieces[1..];
      LastPiece(rest, d);
      var whole := Join(pieces, d);
      assert whole == pieces[0] + [d] + Join(rest, d);
      if Join(rest, d) != "" { assert whole[|whole| - 1] == Join(rest, d)[|Join(rest, d)| - 1]; }
    }
  }

  lemma DropEmpty(pieces: seq<string>)
    requires |pieces| > 1 && pieces[|pieces| - 1] == ""
    ensures Join(pieces, '\n') == Join(pieces[..|pieces| - 1], '\n') + "\n"
  {
    var front := pieces[..|pieces| - 1];
    assert pieces == front + [""];
    JoinAppend(front, '\n');
  }

  /** The lines of a document joined are the document, but for a newline at its end. */
  lemma LinesAre(document: string)
    ensures forall i :: 0 <= i < |Lines(document)| ==> Free(Lines(document)[i], '\n')
    ensures Lines(document) == [] <==> document == ""
    ensures document != "" ==>
        var whole := Join(Lines(document), '\n');
        document == if document[|document| - 1] == '\n' then whole + "\n" else whole
  {
    hide Fields, Join, Free;
    var pieces := Fields(document, '\n');
    JoinOfFields(document, '\n');
    LastPiece(pieces, '\n');
    if pieces[|pieces| - 1] == "" {
      if |pieces| > 1 { DropEmpty(pieces); } else { assert pieces == [""]; }
    }
  }

  /** A version line: its one number is positive. */
  ghost predicate SaysVersion(line: string, version: int) {
    exists text :: line == "VERSION\t" + text && Free(text, '\t') && ParseInt(text) == Some(version) && version > 0
  }

  lemma VersionIff(line: string, version: int)
    ensures ReadVersion(line) == Some(version) <==> SaysVersion(line, version)
  {
    hide ParseInt;
    var f := Fields(line, '\t');
    if ReadVersion(line) == Some(version) {
      JoinOfFields(line, '\t');
      assert Join(f, '\t') == f[0] + "\t" + Join(f[1..], '\t') && Join(f[1..], '\t') == f[1];
      assert line == "VERSION\t" + f[1];
    }
    if SaysVersion(line, version) {
      var text :| line == "VERSION\t" + text && Free(text, '\t') && ParseInt(text) == Some(version) && version > 0;
      FieldsCut("VERSION", '\t', text);
      FieldsWhole(text, '\t');
      assert "VERSION" + ['\t'] + text == line;
      assert f == ["VERSION", text];
    }
  }

  // ---------------------------------------------------------------- the first bad line

  /** The first line that names no kind with so many fields, cannot be read, or repeats a key. */
  ghost predicate BadLine(body: seq<string>, i: nat, e: Error) {
    && i < |body| && body[i] != ""
    && RecordsIn(body[..i]).Some? && DistinctKeys(RecordsIn(body[..i]).value)
    && var f := Fields(body[i], '\t');
      if |f| != Arity(f[0]) then e == UnknownRecord(i + 3)
      else
        && e == InvalidRecord(f[0], i + 3)
        && (RecordOn(body[i]).Some? ==> !DistinctKeys(RecordsIn(body[..i]).value + [RecordOn(body[i]).value]))
  }

  lemma LinesOkIff(version: int, body: seq<string>)
    ensures AddLines(version, body).Ok? <==> RecordsIn(body).Some? && DistinctKeys(RecordsIn(body).value)
    ensures AddLines(version, body).Ok? ==>
        AddAll(version, RecordsIn(body).value) == Some(AddLines(version, body).value)
  {
    hide AddLines, AddAll, RecordsIn, DistinctKeys;
    LinesAreRecords(version, body);
    if RecordsIn(body).Some? { AddAllIff(version, RecordsIn(body).value); }
  }

  lemma LineFails(version: int, body: seq<string>) returns (i: nat)
    requires AddLines(version, body).Err?
    ensures BadLine(body, i, AddLines(version, body).error)
  {
    hide AddLines, AddAll, RecordsIn, DistinctKeys, ReadRecord, Fields, Arity, Add;
    i := FirstBadLine(version, body);
    LinesOkIff(version, body[..i]);
    var f, rs := Fields(body[i], '\t'), RecordsIn(body[..i]).value;
    if |f| == Arity(f[0]) && ReadRecord(f).Some? {
      AddAllNext(version, rs, ReadRecord(f).value);
      AddAllIff(version, rs + [ReadRecord(f).value]);
    }
  }

  // ---------------------------------------------------------------- the first unsound link

  function LinksIn(rs: seq<Record>): (links: seq<Record>)
    ensures forall i :: 0 <= i < |links| ==> links[i].Link?
  {
    if rs == [] then []
    else LinksIn(rs[..|rs| - 1]) + if rs[|rs| - 1].Link? then [rs[|rs| - 1]] else []
  }

  lemma {:induction false} LinksWait(version: int, rs: seq<Record>)
    requires AddAll(version, rs).Some?
    ensures AddAll(version, rs).value.links == LinksIn(rs)
  {
    if rs != [] { LinksWait(version, rs[..|rs| - 1]); }
  }

  lemma {:induction false} InLinksIff(rs: seq<Record>, l: Record)
    ensures l in LinksIn(rs) <==> l in rs && l.Link?
  {
    if rs != [] {
      InLinksIff(rs[..|rs| - 1], l);
      assert rs == rs[..|rs| - 1] + [rs[|rs| - 1]];
    }
  }

  predicate ReadableLink(l: Record)
    requires l.Link?
  {
    ParseInt(l.projectText).Some? && ParseBool(l.defaultText).Some? && ParseInt(l.fundText).Some?
  }

  ghost predicate NamedIn(rs: seq<Record>, l: Record)
    requires l.Link?
  {
    exists projectId, fundId, isDefault, enabled, active, product ::
      LinkNames(rs, l, projectId, fundId, isDefault, enabled, active, product)
  }

  /** What is wrong with an unsound link: its numbers, the records it names, or a product in force without markets. */
  ghost predicate LinkErrorIs(rs: seq<Record>, l: Record, e: Error)
    requires l.Link?
  {
    e == if !ReadableLink(l) then InvalidLink else if !NamedIn(rs, l) then InconsistentLink else LinkWithoutMarket
  }

  lemma TargetNamedIff(d: Draft, rs: seq<Record>, l: Record)
    requires Mirrors(d, rs) && l.Link? && ReadableLink(l)
    ensures LinkTarget(d.policy, l).Ok? <==> NamedIn(rs, l)
  {
    hide ParseInt, ParseBool;
    if LinkTarget(d.policy, l).Ok? { TargetIsNamed(d, rs, l); }
    if NamedIn(rs, l) { NamedIsTarget(d, rs, l); }
  }

  lemma TargetIsNamed(d: Draft, rs: seq<Record>, l: Record)
    requires Mirrors(d, rs) && l.Link? && LinkTarget(d.policy, l).Ok?
    ensures NamedIn(rs, l)
  {
    hide ParseInt, ParseBool, Mirrors;
    var p := d.policy;
    var projectId, fundId := ParseInt(l.projectText).value, ParseInt(l.fundText).value;
    RecordedProject(d, rs, projectId);
    RecordedProduct(d, rs, fundId);
    RecordedAccount(d, rs, l.linkAccount);
    var j, a := p.projects[projectId], p.accounts[l.linkAccount];
    assert j == ProjectRule(fundId, j.enabled);
    assert LinkNames(rs, l, projectId, fundId, ParseBool(l.defaultText).value, j.enabled, a.active, p.products[fundId]);
  }

  lemma NamedIsTarget(d: Draft, rs: seq<Record>, l: Record)
    requires Mirrors(d, rs) && l.Link? && NamedIn(rs, l)
    ensures LinkTarget(d.policy, l).Ok?
  {
    hide ParseInt, ParseBool;
    var projectId, fundId, isDefault, enabled, active, product :|
      LinkNames(rs, l, projectId, fundId, isDefault, enabled, active, product);
    assert Holds(d, Project(projectId, ProjectRule(fundId, enabled)));
    assert Holds(d, Account(l.linkAccount, l.linkType, active)) && Holds(d, Product(fundId, product));
  }

  /** The error of one link does not depend on the grants made before it. */
  lemma LinkError(d: Draft, rs: seq<Record>, q: Policy, l: Record)
    requires Mirrors(d, rs) && SameBase(d.policy, q) && l.Link? && AddLink(q, l).Err?
    ensures LinkErrorIs(rs, l, AddLink(q, l).error)
  {
    hide ParseInt, ParseBool, Mirrors, NamedIn;
    assert LinkTarget(q, l) == LinkTarget(d.policy, l);
    if ReadableLink(l) { TargetNamedIff(d, rs, l); }
  }

  /** The links are resolved up to the first unsound one. */
  lemma {:induction false} FirstUnsound(d: Draft, rs: seq<Record>, links: seq<Record>) returns (i: nat)
    requires Mirrors(d, rs) && NoGrants(d.policy) && AllLinks(links) && AddLinks(d.policy, links).Err?
    ensures i < |links| && !SoundLinkIn(rs, links[i])
    ensures forall k :: 0 <= k < i ==> SoundLinkIn(rs, links[k])
    ensures LinkErrorIs(rs, links[i], AddLinks(d.policy, links).error)
  {
    hide Mirrors, AddLink, LinkErrorIs, SoundLinkIn, LinkOk;
    var front, l := links[..|links| - 1], links[|links| - 1];
    if AddLinks(d.policy, front).Err? {
      i := FirstUnsound(d, rs, front);
      assert links[i] == front[i] && forall k :: 0 <= k < i ==> links[k] == front[k];
    } else {
      i := |links| - 1;
      var q := AddLinks(d.policy, front).value;
      AddLinksIff(d.policy, front);
      AddLinkEnters(d.policy, front, q, l);
      LinkError(d, rs, q, l);
      LinkOkIff(d, rs, l);
      forall k | 0 <= k < i ensures SoundLinkIn(rs, links[k]) {
        assert links[k] == front[k] && front[k].Link?;
        LinkOkIff(d, rs, front[k]);
      }
    }
  }

  // ---------------------------------------------------------------- whole documents

  /** The link at `i` is the first unsound one. */
  ghost predicate FirstUnsoundAt(rs: seq<Record>, i: nat) {
    && i < |LinksIn(rs)| && !SoundLinkIn(rs, LinksIn(rs)[i])
    && forall k :: 0 <= k < i ==> SoundLinkIn(rs, LinksIn(rs)[k])
  }

  /** The outcome of the records: the first unsound link, then a security without a market, or acceptance. */
  ghost predicate RecordsOutcome(version: int, rs: seq<Record>, r: Result<Policy, Error>) {
    if forall i :: 0 <= i < |LinksIn(rs)| ==> SoundLinkIn(rs, LinksIn(rs)[i]) then
      if MarketsRecorded(rs) then r.Ok? && r.value.version == version else r == Err(SecurityWithoutMarket)
    else
      r.Err? && exists i: nat :: FirstUnsoundAt(rs, i) && LinkErrorIs(rs, LinksIn(rs)[i], r.error)
  }

  ghost predicate BodyOutcome(version: int, body: seq<string>, r: Result<Policy, Error>) {
    if RecordsIn(body).None? || !DistinctKeys(RecordsIn(body).value)
    then r.Err? && exists i: nat :: BadLine(body, i, r.error)
    else RecordsOutcome(version, RecordsIn(body).value, r)
  }

  lemma FinishOutcome(version: int, rs: seq<Record>)
    requires DistinctKeys(rs)
    ensures RecordsOutcome(version, rs, Finish(AddAllSome(version, rs)))
  {
    hide Mirrors, AddLinks, SoundLinkIn, LinkErrorIs, SecuritiesListed, MarketsRecorded, LinkOk, DistinctKeys;
    var d := AddAllSome(version, rs);
    LinksWait(version, rs);
    var links := LinksIn(rs);
    MirroredHasNoGrants(d, rs);
    if AddLinks(d.policy, links).Err? {
      var i := FirstUnsound(d, rs, links);
      assert FirstUnsoundAt(rs, i);
    } else {
      AddLinksIff(d.policy, links);
      forall i | 0 <= i < |links| ensures SoundLinkIn(rs, links[i]) { LinkOkIff(d, rs, links[i]); }
      SameListing(d.policy, AddLinks(d.policy, links).value);
      ListedIff(d, rs);
    }
  }

  /** Every document is refused for the first thing wrong with it: its first line, its second, a record line, a
      link, a security without a market; with nothing wrong it is accepted under its version. */
  lemma DocumentOutcome(document: string)
    ensures var lines, r := Lines(document), ParseDocument(document);
      if lines == [] || lines[0] != "QF_RUNTIME_POLICY\t1" then r == Err(UnsupportedHeader)
      else if |lines| == 1 then r == Err(MissingVersion)
      else if !(exists v :: SaysVersion(lines[1], v)) then r == Err(InvalidVersion)
      else forall v :: SaysVersion(lines[1], v) ==> BodyOutcome(v, lines[2..], r)
  {
    hide Lines, AddLines, Finish, BodyOutcome, ReadVersion, SaysVersion;
    var lines := Lines(document);
    if |lines| >= 2 {
      var line := lines[1];
      forall v ensures ReadVersion(line) == Some(v) <==> SaysVersion(line, v) { VersionIff(line, v); }
      if ReadVersion(line).Some? && lines[0] == HEADER {
        BodyMeets(document, ReadVersion(line).value);
      }
    }
  }

  lemma BodyMeets(document: string, version: int)
    requires var lines := Lines(document);
      |lines| >= 2 && lines[0] == HEADER && ReadVersion(lines[1]) == Some(version)
    ensures BodyOutcome(version, Lines(document)[2..], ParseDocument(document))
  {
    hide Lines, AddLines, Finish, ReadVersion, RecordsIn, RecordsOutcome, DistinctKeys, BadLine;
    var body := Lines(document)[2..];
    LinesOkIff(version, body);
    if AddLines(version, body).Err? {
      var i := LineFails(version, body);
    } else {
      FinishOutcome(version, RecordsIn(body).value);
    }
  }

  // ---------------------------------------------------------------- the first grant wins

  /** The link at `i` is the first to give this account a product of this code. */
  ghost predicate FirstGrant(p: Policy, links: seq<Record>, i: nat, a: string, code: string, markets: set<string>) {
    && i < |links| && GrantedBy(p, links[i], a, code, markets)
    && forall k, other :: 0 <= k < i ==> !GrantedBy(p, links[k], a, code, other)
  }

  lemma FirstStays(p: Policy, front: seq<Record>, l: Record, i: nat, a: string, code: string, markets: set<string>)
    requires FirstGrant(p, front, i, a, code, markets)
    ensures FirstGrant(p, front + [l], i, a, code, markets)
  {
    hide GrantedBy;
    assert forall k :: 0 <= k < |front| ==> (front + [l])[k] == front[k];
  }

  lemma NewGrant(p: Policy, front: seq<Record>, q: Policy, l: Record, a: string, code: string, markets: set<string>)
    requires GrantsEntered(p, front, q) && GrantedBy(p, l, a, code, markets)
    requires !(a in q.accounts && code in q.accounts[a].productMarkets)
    ensures FirstGrant(p, front + [l], |front|, a, code, markets)
  {
    hide GrantedBy;
    var links := front + [l];
    forall k, other | 0 <= k < |front| ensures !GrantedBy(p, links[k], a, code, other) {
      assert links[k] == front[k] && !Granted(p, front, a, code, other);
    }
    assert links[|front|] == l;
  }

  lemma GrantsLeft(p: Policy, q: Policy, l: Record, a: string, code: string)
    requires SameBase(p, q) && l.Link? && AddLink(q, l).Ok?
    requires a in AddLink(q, l).value.accounts && code in AddLink(q, l).value.accounts[a].productMarkets
    ensures var q' := AddLink(q, l).value;
      if a in q.accounts && code in q.accounts[a].productMarkets
      then q'.accounts[a].productMarkets[code] == q.accounts[a].productMarkets[code]
      else GrantedBy(p, l, a, code, q'.accounts[a].productMarkets[code])
  {
    hide ParseInt, ParseBool;
    assert LinkTarget(q, l) == LinkTarget(p, l);
  }

  /** When several links in force give one account products of one code, the first one's markets are kept. */
  lemma {:induction false} FirstGrantWins(p: Policy, links: seq<Record>, a: string, code: string) returns (i: nat)
    requires NoGrants(p) && AllLinks(links) && AddLinks(p, links).Ok?
    requires a in AddLinks(p, links).value.accounts
    requires code in AddLinks(p, links).value.accounts[a].productMarkets
    ensures FirstGrant(p, links, i, a, code, AddLinks(p, links).value.accounts[a].productMarkets[code])
  {
    hide AddLink, GrantedBy, FirstGrant;
    i := 0;
    if links != [] {
      var front, l := links[..|links| - 1], links[|links| - 1];
      assert links == front + [l];
      AddLinksIff(p, front);
      var q := AddLinks(p, front).value;
      GrantsLeft(p, q, l, a, code);
      if a in q.accounts && code in q.accounts[a].productMarkets {
        i := FirstGrantWins(p, front, a, code);
        FirstStays(p, front, l, i, a, code, q.accounts[a].productMarkets[code]);
      } else {
        i := |front|;
        NewGrant(p, front, q, l, a, code, AddLinks(p, links).value.accounts[a].productMarkets[code]);
      }
    }
  }
}

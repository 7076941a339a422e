/** From whole documents to records: what any accepted document says. */
module PolicyDocuments {
  import opened Wrappers
  import opened Text
  import opened PolicyModel
  import opened PolicyTheory

  /** The record on a line, when it has one that can be read. */
  function RecordOn(line: string): Option<Record> {
    var f := Fields(line, '\t');
    if |f| != Arity(f[0]) then None else ReadRecord(f)
  }

  /** The records of the lines, in order; None when some line that is not empty cannot be read. */
  function RecordsIn(lines: seq<string>): Option<seq<Record>> {
    if lines == [] then Some([])
    else match RecordsIn(lines[..|lines| - 1])
      case None => None
      case Some(rs) =>
        if lines[|lines| - 1] == "" then Some(rs)
        else match RecordOn(lines[|lines| - 1])
          case None => None
          case Some(r) => Some(rs + [r])
  }

  lemma AddAllNext(version: int, rs: seq<Record>, r: Record)
    ensures AddAll(version, rs + [r]) == match AddAll(version, rs) case None => None case Some(d) => Add(d, r)
  {
    assert (rs + [r])[..|rs|] == rs;
  }

  lemma LineAdds(d: Draft, line: string, number: nat)
    ensures line == "" ==> AddLine(d, line, number) == Ok(d)
    ensures line != "" ==> if RecordOn(line).Some? && Add(d, RecordOn(line).value).Some?
      then AddLine(d, line, number) == Ok(Add(d, RecordOn(line).value).value) else AddLine(d, line, number).Err?
  {
    hide ReadRecord, Add, Fields;
  }

  /** The draft read from lines is the draft of their records. */
  ghost predicate SameDraft(r: Result<Draft, Error>, version: int, records: Option<seq<Record>>) {
    if records.Some? && AddAll(version, records.value).Some?
    then r == Ok(AddAll(version, records.value).value)
    else r.Err?
  }

  lemma {:induction false} LinesAreRecords(version: int, lines: seq<string>)
    ensures SameDraft(AddLines(version, lines), version, RecordsIn(lines))
    decreases |lines|
  {
    hide AddLine, RecordOn, Add;
    if lines != [] {
      var front, line := lines[..|lines| - 1], lines[|lines| - 1];
      LinesAreRecords(version, front);
      if AddLines(version, front).Ok? { LineAdds(AddLines(version, front).value, line, |lines| + 2); }
      if RecordsIn(front).Some? && RecordOn(line).Some? {
        AddAllNext(version, RecordsIn(front).value, RecordOn(line).value);
      }
    }
  }

  lemma {:induction false} RecordsAreSound(lines: seq<string>)
    requires RecordsIn(lines).Some?
    ensures SoundRecords(RecordsIn(lines).value)
  {
    if lines != [] {
      RecordsAreSound(lines[..|lines| - 1]);
      if lines[|lines| - 1] != "" { RecordIsSound(lines[|lines| - 1]); }
      hide RecordOn;
    }
  }

  lemma RecordIsSound(line: string)
    ensures RecordOn(line).Some? && RecordOn(line).value.Security? ==> SoundSecurity(RecordOn(line).value.security)
  {
    hide Fields, ParseInt, ParseDouble, MarketSet;
  }

  /** The version and records of a document with a sound head. */
  function Contents(document: string): Option<(int, seq<Record>)> {
    var lines := Lines(document);
    if |lines| < 2 || lines[0] != HEADER then None
    else match (ReadVersion(lines[1]), RecordsIn(lines[2..]))
      case (Some(version), Some(rs)) => Some((version, rs))
      case _ => None
  }

  /** A document is accepted if and only if its head is sound, every line can be read and the records are
      acceptable; it then stands for the policy of its records. */
  lemma DocumentMeans(document: string)
    ensures ParseDocument(document).Ok? <==>
      Contents(document).Some? && Interpret(Contents(document).value.0, Contents(document).value.1).Some?
    ensures ParseDocument(document).Ok? ==>
      Interpret(Contents(document).value.0, Contents(document).value.1) == Some(ParseDocument(document).value)
  {
    var lines := Lines(document);
    hide Lines, AddLines, AddAll, Finish, RecordsIn;
    if |lines| >= 2 && lines[0] == HEADER && ReadVersion(lines[1]).Some? {
      var version := ReadVersion(lines[1]).value;
      hide ReadVersion;
      LinesAreRecords(version, lines[2..]);
      LinesKeepLinks(version, lines[2..]);
      if RecordsIn(lines[2..]).Some? { AddAllKeepsLinks(version, RecordsIn(lines[2..]).value); }
    }
  }

  /** After any accepted document with colon-free market codes and distinct product codes, orders and cancels
      are admitted exactly as its records say. */
  lemma DocumentAdmits(document: string, account: string, product: string, ticker: string, exchange: string,
                       direction: int, price: real, volume: int)
    requires ParseDocument(document).Ok? && Contents(document).Some?
    requires ColonFree(Contents(document).value.1) && DistinctProductCodes(Contents(document).value.1)
    ensures var q, rs := ParseDocument(document).value, Contents(document).value.1;
      && (forall key :: key in q.securities ==> SoundSecurity(q.securities[key]))
      && (CanOrder(q, account, product, ticker, exchange, direction, price, volume) == None
          <==> Admits(rs, account, product, ticker, exchange, direction, price, volume))
      && (CanCancel(q, account, product, ticker, exchange) == None <==> Cancels(rs, account, product, ticker, exchange))
  {
    DocumentMeans(document);
    RecordsAreSound(Lines(document)[2..]);
    var version, rs := Contents(document).value.0, Contents(document).value.1;
    hide ParseDocument, Contents, Interpret, CanOrder, CanCancel, Admits, Cancels;
    CanOrderIff(version, rs, account, product, ticker, exchange, direction, price, volume);
    CanCancelIff(version, rs, account, product, ticker, exchange);
  }

  /** Two accepted heads over the same records in any order, with distinct product codes, mean the same. */
  lemma DocumentOrderIsIrrelevant(document: string, other: string)
    requires Contents(document).Some? && Contents(other).Some?
    requires Contents(document).value.0 == Contents(other).value.0
    requires multiset(Contents(document).value.1) == multiset(Contents(other).value.1)
    requires DistinctProductCodes(Contents(document).value.1)
    ensures ParseDocument(document).Ok? <==> ParseDocument(other).Ok?
    ensures ParseDocument(document).Ok? ==> ParseDocument(document) == ParseDocument(other)
  {
    DocumentMeans(document);
    DocumentMeans(other);
    hide ParseDocument, Contents, Interpret;
    OrderIsIrrelevant(Contents(document).value.0, Contents(document).value.1, Contents(other).value.1);
  }
}

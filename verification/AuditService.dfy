/** From usage messages to verified chains: the consumer loop, and what the verifier says of any run. */
module AuditService {
  import opened Wrappers
  import opened Folds
  import opened AuditChain
  import opened AuditWriter
  import opened AuditProtocol
  import opened AuditVerifier

  datatype UsageEvent = UsageEvent(requestId: string, org: string, user: string, provider: string, model: string,
                                   status: string, dlpViolation: bool, policyDecision: string, at: int)

  /** None when the message value is not a usage event. */
  datatype Message = Message(offset: nat, event: Option<UsageEvent>)

  /** One member of a JSON object, its value printed already. */
  datatype Field = Field(key: string, value: string)

  function FieldText(f: Field): string {
    "\"" + f.key + "\":" + f.value
  }

  /** The members from the k-th on, as json.Marshal prints them. */
  function FieldsFrom(fs: seq<Field>, k: nat): string
    decreases |fs| - k
  {
    if k >= |fs| then ""
    else if k == |fs| - 1 then FieldText(fs[k]) else FieldText(fs[k]) + "," + FieldsFrom(fs, k + 1)
  }

  /** The payload map, its keys sorted; quote is the encoding of a JSON string. */
  function Payload(quote: string -> string, ev: UsageEvent): seq<Field> {
    [Field("dlp_violation", if ev.dlpViolation then "true" else "false"),
     Field("model", quote(ev.model)),
     Field("policy_decision", quote(ev.policyDecision)),
     Field("provider", quote(ev.provider)),
     Field("status", quote(ev.status))]
  }

  function PayloadText(quote: string -> string, ev: UsageEvent): string {
    "{" + FieldsFrom(Payload(quote, ev), 0) + "}"
  }

  /** The text has this key followed by this value. */
  ghost predicate Shows(text: string, key: string, value: string) {
    exists pre: string, post: string :: text == pre + ("\"" + key + "\":" + value) + post
  }

  lemma ShowsWithin(lead: string, text: string, trail: string, key: string, value: string)
    requires Shows(text, key, value)
    ensures Shows(lead + text + trail, key, value)
  {
    var mid := "\"" + key + "\":" + value;
    var pre: string, post: string :| text == pre + mid + post;
    assert lead + text + trail == (lead + pre) + mid + (post + trail);
  }

  lemma ShowsItself(f: Field)
    ensures Shows(FieldText(f), f.key, f.value)
  {
    assert FieldText(f) == "" + ("\"" + f.key + "\":" + f.value) + "";
  }

  lemma {:induction false} FieldShows(fs: seq<Field>, k: nat, i: nat)
    requires k <= i < |fs|
    ensures Shows(FieldsFrom(fs, k), fs[i].key, fs[i].value)
    decreases i - k
  {
    var f := fs[i];
    if k < i {
      FieldShows(fs, k + 1, i);
      ShowsWithin(FieldText(fs[k]) + ",", FieldsFrom(fs, k + 1), "", f.key, f.value);
      assert FieldText(fs[k]) + "," + FieldsFrom(fs, k + 1) + "" == FieldsFrom(fs, k);
    } else {
      var rest := if i == |fs| - 1 then "" else "," + FieldsFrom(fs, k + 1);
      ShowsItself(f);
      ShowsWithin("", FieldText(f), rest, f.key, f.value);
      assert "" + FieldText(f) + rest == FieldsFrom(fs, k);
    }
  }

  lemma PayloadShowsAt(quote: string -> string, ev: UsageEvent, i: nat)
    requires i < |Payload(quote, ev)|
    ensures Shows(PayloadText(quote, ev), Payload(quote, ev)[i].key, Payload(quote, ev)[i].value)
  {
    var fs := Payload(quote, ev);
    FieldShows(fs, 0, i);
    ShowsWithin("{", FieldsFrom(fs, 0), "}", fs[i].key, fs[i].value);
  }

  /** Each key of the payload is followed by the value of its own field of the event. */
  lemma PayloadShows(quote: string -> string, ev: UsageEvent)
    ensures
      var text := PayloadText(quote, ev);
      && Shows(text, "provider", quote(ev.provider)) && Shows(text, "model", quote(ev.model))
      && Shows(text, "status", quote(ev.status)) && Shows(text, "policy_decision", quote(ev.policyDecision))
      && Shows(text, "dlp_violation", if ev.dlpViolation then "true" else "false")
  {
    PayloadShowsAt(quote, ev, 0);
    PayloadShowsAt(quote, ev, 1);
    PayloadShowsAt(quote, ev, 2);
    PayloadShowsAt(quote, ev, 3);
    PayloadShowsAt(quote, ev, 4);
  }

  function ToRequest(quote: string -> string, ev: UsageEvent, rowId: string): Request {
    Request(Entry(ev.org, "api_request", Some(PayloadText(quote, ev)), ev.at), rowId)
  }

  /** A message, with the row id its write would get and the fault it would meet. */
  datatype Delivery = Delivery(msg: Message, rowId: string, fault: Fault)

  predicate Wanted(d: Delivery) {
    d.msg.event.Some? && d.msg.event.value.org != ""
  }

  function WriteOf(quote: string -> string, d: Delivery): Request
    requires Wanted(d)
  {
    ToRequest(quote, d.msg.event.value, d.rowId)
  }

  function Handle(env: Env, quote: string -> string, t: Tables, d: Delivery): Tables {
    if Wanted(d) then After(env, t, WriteOf(quote, d), d.fault) else t
  }

  /** An undecodable message and one without organisation write nothing; any other writes its own event. */
  lemma HandledAsEvent(env: Env, quote: string -> string, t: Tables, d: Delivery)
    ensures d.msg.event.None? ==> Handle(env, quote, t, d) == t
    ensures d.msg.event.Some? && d.msg.event.value.org == "" ==> Handle(env, quote, t, d) == t
    ensures d.msg.event.Some? && d.msg.event.value.org != "" ==>
              var ev := d.msg.event.value;
              var entry := Entry(ev.org, "api_request", Some(PayloadText(quote, ev)), ev.at);
              Handle(env, quote, t, d) == After(env, t, Request(entry, d.rowId), d.fault)
  {
  }

  function HandleAll(env: Env, quote: string -> string, t: Tables, ds: seq<Delivery>): Tables {
    if ds == [] then t
    else Handle(env, quote, HandleAll(env, quote, t, ds[..|ds| - 1]), ds[|ds| - 1])
  }

  lemma HandleAllStep(env: Env, quote: string -> string, t: Tables, ds: seq<Delivery>, n: nat)
    requires n < |ds|
    ensures HandleAll(env, quote, t, ds[..n + 1]) == Handle(env, quote, HandleAll(env, quote, t, ds[..n]), ds[n])
  {
    assert ds[..n + 1][..n] == ds[..n];
  }

  method HandleOne(w: Writer, quote: string -> string, d: Delivery)
    modifies w
    ensures w.tables == Handle(w.env, quote, old(w.tables), d)
  {
    if d.msg.event.Some? && d.msg.event.value.org != "" {
      var _ := w.Write(ToRequest(quote, d.msg.event.value, d.rowId), d.fault);
    }
  }

  /** Every message is marked, whether it was decoded, skipped, written or refused by the database. */
  method ConsumeClaim(w: Writer, quote: string -> string, ds: seq<Delivery>) returns (marked: seq<nat>)
    modifies w
    ensures w.tables == HandleAll(w.env, quote, old(w.tables), ds)
    ensures |marked| == |ds| && forall i :: 0 <= i < |ds| ==> marked[i] == ds[i].msg.offset
  {
    marked := [];
    var i := 0;
    while i < |ds|
      invariant 0 <= i <= |ds| && |marked| == i
      invariant w.tables == HandleAll(w.env, quote, old(w.tables), ds[..i])
      invariant forall k :: 0 <= k < i ==> marked[k] == ds[k].msg.offset
    {
      HandleAllStep(w.env, quote, old(w.tables), ds, i);
      HandleOne(w, quote, ds[i]);
      marked := marked + [ds[i].msg.offset];
      i := i + 1;
    }
    assert ds[..i] == ds;
  }

  // ----- Consuming is writing

  /** Does the write of this message commit? */
  predicate Succeeds(env: Env, quote: string -> string, t: Tables, d: Delivery) {
    Wanted(d) && WriteResult(env, t, WriteOf(quote, d), d.fault).Ok?
  }

  /** For each message: does its write commit on the tables that the earlier messages left? */
  function Successes(env: Env, quote: string -> string, t: Tables, ds: seq<Delivery>): seq<bool> {
    seq(|ds|, k requires 0 <= k < |ds| => Succeeds(env, quote, HandleAll(env, quote, t, ds[..k]), ds[k]))
  }

  lemma SuccessesPrefix(env: Env, quote: string -> string, t: Tables, ds: seq<Delivery>, m: nat)
    requires m <= |ds|
    ensures Successes(env, quote, t, ds[..m]) == Successes(env, quote, t, ds)[..m]
  {
    forall k | 0 <= k < m ensures ds[..m][..k] == ds[..k] {
    }
  }

  /** The writes of the messages so flagged: one for each, in the order of the messages, with its own row id. */
  function WritesOf(quote: string -> string, ds: seq<Delivery>, flags: seq<bool>): seq<Request>
    requires |flags| == |ds|
  {
    if ds == [] then []
    else
      var m := |ds| - 1;
      WritesOf(quote, ds[..m], flags[..m]) + if flags[m] && Wanted(ds[m]) then [WriteOf(quote, ds[m])] else []
  }

  /** Each of them is the write of one of the messages. */
  lemma {:induction false} WriteOfSome(quote: string -> string, ds: seq<Delivery>, flags: seq<bool>, req: Request)
    returns (k: nat)
    requires |flags| == |ds| && req in WritesOf(quote, ds, flags)
    ensures k < |ds| && Wanted(ds[k]) && req == WriteOf(quote, ds[k])
  {
    k := |ds| - 1;
    if !(flags[k] && Wanted(ds[k]) && req == WriteOf(quote, ds[k])) {
      k := WriteOfSome(quote, ds[..k], flags[..k], req);
    }
  }

  /** The tables after a write, whether it succeeds or not. */
  function WriteOrKeep(env: Env, t: Tables, req: Request): Tables {
    match WriteOne(env, t, req) case Ok(t') => t' case Err(_) => t
  }

  /** Writes run one at a time from given tables. */
  function SerialFrom(env: Env, t: Tables, reqs: seq<Request>): Tables {
    Fold((t: Tables, req: Request) => WriteOrKeep(env, t, req), t, reqs)
  }

  lemma {:induction false} SerialIsFold(env: Env, reqs: seq<Request>)
    ensures Serial(env, reqs) == SerialFrom(env, EMPTY_TABLES, reqs)
  {
    if reqs != [] {
      SerialIsFold(env, reqs[..|reqs| - 1]);
    }
  }

  lemma SerialFromSerial(env: Env, log: seq<Request>, more: seq<Request>)
    ensures SerialFrom(env, Serial(env, log), more) == Serial(env, log + more)
  {
    SerialIsFold(env, log);
    SerialIsFold(env, log + more);
    FoldConcat((t: Tables, req: Request) => WriteOrKeep(env, t, req), EMPTY_TABLES, log, more);
  }

  lemma SerialFromStep(env: Env, t: Tables, reqs: seq<Request>, req: Request)
    ensures SerialFrom(env, t, reqs + [req]) == WriteOrKeep(env, SerialFrom(env, t, reqs), req)
  {
    FoldStep((t: Tables, req: Request) => WriteOrKeep(env, t, req), t, reqs, req);
  }

  lemma HandleSucceeds(env: Env, quote: string -> string, t: Tables, d: Delivery)
    ensures if Succeeds(env, quote, t, d) then WriteOne(env, t, WriteOf(quote, d)) == Ok(Handle(env, quote, t, d))
            else Handle(env, quote, t, d) == t
  {
  }

  lemma OneMoreWrite(env: Env, quote: string -> string, t: Tables, reqs: seq<Request>, d: Delivery, ok: bool)
    requires ok <==> Succeeds(env, quote, SerialFrom(env, t, reqs), d)
    ensures Handle(env, quote, SerialFrom(env, t, reqs), d) ==
            SerialFrom(env, t, reqs + if ok && Wanted(d) then [WriteOf(quote, d)] else [])
  {
    HandleSucceeds(env, quote, SerialFrom(env, t, reqs), d);
    if ok {
      SerialFromStep(env, t, reqs, WriteOf(quote, d));
    } else {
      assert reqs + [] == reqs;
    }
  }

  lemma ConsumingStep(env: Env, quote: string -> string, t: Tables, ds: seq<Delivery>, before: seq<Request>)
    requires ds != [] && before == WritesOf(quote, ds[..|ds| - 1], Successes(env, quote, t, ds[..|ds| - 1]))
    requires HandleAll(env, quote, t, ds[..|ds| - 1]) == SerialFrom(env, t, before)
    ensures HandleAll(env, quote, t, ds) == SerialFrom(env, t, WritesOf(quote, ds, Successes(env, quote, t, ds)))
  {
    var m := |ds| - 1;
    var flags := Successes(env, quote, t, ds);
    SuccessesPrefix(env, quote, t, ds, m);
    OneMoreWrite(env, quote, t, before, ds[m], flags[m]);
  }

  /**
   Consuming messages, whatever fails, is a serial run of the writes that commit: one for each such
   message, in the order of the messages, with the row id it was given.
   */
  lemma {:induction false} ConsumingIsWriting(env: Env, quote: string -> string, t: Tables, ds: seq<Delivery>)
    ensures HandleAll(env, quote, t, ds) == SerialFrom(env, t, WritesOf(quote, ds, Successes(env, quote, t, ds)))
    decreases |ds|
  {
    if ds != [] {
      var m := |ds| - 1;
      ConsumingIsWriting(env, quote, t, ds[..m]);
      ConsumingStep(env, quote, t, ds, WritesOf(quote, ds[..m], Successes(env, quote, t, ds[..m])));
    }
  }

  /** So consuming continues whatever writes came before. */
  lemma ConsumingIsSerial(env: Env, quote: string -> string, log: seq<Request>, ds: seq<Delivery>)
    ensures HandleAll(env, quote, Serial(env, log), ds) ==
            Serial(env, log + WritesOf(quote, ds, Successes(env, quote, Serial(env, log), ds)))
  {
    ConsumingIsWriting(env, quote, Serial(env, log), ds);
    SerialFromSerial(env, log, WritesOf(quote, ds, Successes(env, quote, Serial(env, log), ds)));
  }

  // ----- What the verifier's query returns

  function ReadAll(env: Env, rows: seq<Row>): (read: seq<Row>)
    ensures |read| == |rows|
  {
    if rows == [] then [] else ReadAll(env, rows[..|rows| - 1]) + [ReadRow(env, rows[|rows| - 1])]
  }

  function InWindow(rows: seq<Row>, start: Option<int>, end: Option<int>): seq<Row> {
    if rows == [] then []
    else
      var rest, last := InWindow(rows[..|rows| - 1], start, end), rows[|rows| - 1];
      if (start.Some? ==> start.value <= last.createdAt) && (end.Some? ==> last.createdAt <= end.value)
      then rest + [last] else rest
  }

  lemma {:induction false} ReadAllAt(env: Env, rows: seq<Row>, i: nat)
    requires i < |rows|
    ensures ReadAll(env, rows)[i] == ReadRow(env, rows[i])
  {
    if i < |rows| - 1 {
      ReadAllAt(env, rows[..|rows| - 1], i);
    }
  }

  predicate AllBelow(rows: seq<Row>, n: int) {
    forall i :: 0 <= i < |rows| ==> rows[i].seqNum < n
  }

  lemma {:induction false} InsertLast(r: Row, rows: seq<Row>)
    requires AllBelow(rows, r.seqNum)
    ensures InsertBySeq(r, rows) == rows + [r]
  {
    if rows != [] {
      InsertLast(r, rows[1..]);
    }
  }

  lemma {:induction false} InWindowBound(rows: seq<Row>, start: Option<int>, end: Option<int>, n: int)
    requires AllBelow(rows, n)
    ensures AllBelow(InWindow(rows, start, end), n)
  {
    if rows != [] {
      InWindowBound(rows[..|rows| - 1], start, end, n);
    }
  }

  ghost predicate Numbered(rows: seq<Row>, org: string) {
    forall i :: 0 <= i < |rows| ==> rows[i].seqNum == i + 1 && rows[i].org == org
  }

  lemma ReadAllNumbered(env: Env, rows: seq<Row>, org: string)
    requires Numbered(rows, org)
    ensures Numbered(ReadAll(env, rows), org)
  {
    forall i | 0 <= i < |rows| ensures ReadAll(env, rows)[i].seqNum == i + 1 && ReadAll(env, rows)[i].org == org {
      ReadAllAt(env, rows, i);
    }
  }

  lemma WindowStep(env: Env, rows: seq<Row>, org: string, start: Option<int>, end: Option<int>)
    requires Numbered(rows, org) && rows != []
    ensures
      var n := |rows| - 1;
      var rest := InWindow(ReadAll(env, rows[..n]), start, end);
      InWindow(ReadAll(env, rows), start, end) ==
      if Selected(rows[n], org, start, end) then InsertBySeq(ReadRow(env, rows[n]), rest) else rest
  {
    var n := |rows| - 1;
    var before := ReadAll(env, rows[..n]);
    ReadAllNumbered(env, rows[..n], org);
    assert AllBelow(before, rows[n].seqNum);
    InWindowBound(before, start, end, rows[n].seqNum);
    InsertLast(ReadRow(env, rows[n]), InWindow(before, start, end));
    assert ReadAll(env, rows)[..n] == before;
  }

  /** The rows are committed in sequence order, so ORDER BY seq_num changes nothing. */
  lemma {:induction false} SelectIsInWindow(env: Env, table: seq<Row>, org: string,
                                            start: Option<int>, end: Option<int>)
    requires Numbered(RowsOf(table, org), org)
    ensures SelectRows(env, table, org, start, end) == InWindow(ReadAll(env, RowsOf(table, org)), start, end)
  {
    if table != [] {
      var m := |table| - 1;
      var rows := RowsOf(table, org);
      if table[m].org == org {
        assert RowsOf(table[..m], org) == rows[..|rows| - 1];
        WindowStep(env, rows, org, start, end);
      }
      SelectIsInWindow(env, table[..m], org, start, end);
    }
  }

  lemma {:induction false} InWindowIsKept(rows: seq<Row>, start: Option<int>, end: Option<int>) returns (idx: seq<nat>)
    ensures Positions(idx, |rows|) && InWindow(rows, start, end) == Keep(rows, idx)
  {
    idx := [];
    if rows != [] {
      var m := |rows| - 1;
      idx := InWindowIsKept(rows[..m], start, end);
      if (start.Some? ==> start.value <= rows[m].createdAt) && (end.Some? ==> rows[m].createdAt <= end.value) {
        idx := idx + [m];
      }
    }
  }

  lemma {:induction false} NoWindow(rows: seq<Row>)
    ensures InWindow(rows, None, None) == rows
  {
    if rows != [] {
      NoWindow(rows[..|rows| - 1]);
    }
  }

  // ----- The verdict on any run

  /** The columns print the organisation and the payload as they were when hashed. */
  predicate Faithful(env: Env, req: Request) {
    req.entry.payload.Some? && env.orgText(req.entry.org) == req.entry.org
    && env.jsonText(req.entry.payload.value) == req.entry.payload.value
  }

  predicate RequestBarFree(env: Env, req: Request) {
    '|' !in req.entry.org && '|' !in env.orgText(req.entry.org) && '|' !in req.entry.event
  }

  /** The row as hashed: with the organisation text of the request. */
  function HashedRow(req: Request, r: Row): Row {
    r.(org := req.entry.org)
  }

  function HashedRows(writes: seq<Request>, rows: seq<Row>): seq<Row>
    requires |writes| == |rows|
  {
    seq(|rows|, i requires 0 <= i < |rows| => HashedRow(writes[i], rows[i]))
  }

  function ReadChain(env: Env, writes: seq<Request>): (rows: seq<Row>)
    ensures |rows| == |writes|
  {
    ReadAll(env, ChainOf(env, writes))
  }

  /** The conditions under which the verdicts below are stated: on the accepted writes of one organisation. */
  ghost predicate Sound(env: Env, writes: seq<Request>) {
    && HexDigests(env)
    && (forall i :: 0 <= i < |writes| ==> writes[i].entry.payload.Some? && RequestBarFree(env, writes[i]))
    && !Collision(env, HashedRows(writes, ChainOf(env, writes)), ReadChain(env, writes))
    && !Collision(env, ReadChain(env, writes), ReadChain(env, writes))
  }

  lemma ChainLinks(env: Env, writes: seq<Request>, i: nat)
    requires HexDigests(env) && i < |writes|
    ensures
      var r := ReadChain(env, writes)[i];
      && r.seqNum == i + 1 && r.prev == HashBefore(ReadChain(env, writes), i) && '|' !in r.prev
      && r.sig == env.sign(r.hash)
  {
    ChainOfAt(env, writes, i);
    ReadAllAt(env, ChainOf(env, writes), i);
    if i > 0 {
      ChainOfAt(env, writes, i - 1);
      ReadAllAt(env, ChainOf(env, writes), i - 1);
    }
  }

  lemma HashHoldsIffFaithful(env: Env, writes: seq<Request>, i: nat)
    requires Sound(env, writes) && i < |writes|
    ensures var r := ReadChain(env, writes)[i];
            r.hash == env.sha(RowText(r)) <==> Faithful(env, writes[i])
  {
    var chain := ChainOf(env, writes);
    var r, h := ReadChain(env, writes)[i], HashedRow(writes[i], chain[i]);
    ChainOfAt(env, writes, i);
    ReadAllAt(env, chain, i);
    ChainLinks(env, writes, i);
    assert HashedRows(writes, chain)[i] == h;
    assert r.hash == env.sha(RowText(h));
    assert SameContent(r, h) <==> Faithful(env, writes[i]);
    assert !Collides(env, HashedRows(writes, chain)[i], ReadChain(env, writes)[i]);
    if RowText(r) == RowText(h) {
      RawTextInjective(r, h);
    }
  }

  /** What the report must say of a row whose stored hash is not that of its text. */
  function HashMismatchOf(env: Env, r: Row): Violation {
    Violation(r.seqNum, r.id, r.org, HashMismatch, Value(r.hash), env.sha(RowText(r)))
  }

  /**
   The report on a written chain is exactly a hash mismatch at each row whose organisation or payload
   does not read back as it was hashed; links, numbers and signatures always hold.
   */
  lemma WrittenChainReport(env: Env, writes: seq<Request>, i: nat)
    requires Sound(env, writes) && i < |writes|
    ensures ViolationsAt(env, ReadChain(env, writes), i) ==
            if Faithful(env, writes[i]) then [] else [HashMismatchOf(env, ReadChain(env, writes)[i])]
  {
    var rows := ReadChain(env, writes);
    ChainLinks(env, writes, i);
    if i > 0 {
      ChainLinks(env, writes, i - 1);
    }
    HashHoldsIffFaithful(env, writes, i);
    OnlyHashCanFail(env, rows, i);
  }

  lemma WrittenChainIsClean(env: Env, writes: seq<Request>)
    requires Sound(env, writes)
    ensures Clean(env, ReadChain(env, writes)) <==> forall i :: 0 <= i < |writes| ==> Faithful(env, writes[i])
  {
    var rows := ReadChain(env, writes);
    ReportEmptyIffClean(env, rows);
    ReportEmptyIff(env, rows);
    forall i | 0 <= i < |writes| ensures ViolationsAt(env, rows, i) == [] <==> Faithful(env, writes[i]) {
      WrittenChainReport(env, writes, i);
    }
  }

  lemma {:induction false} OrgLogOfOrg(env: Env, log: seq<Request>, org: string)
    ensures forall i :: 0 <= i < |OrgLog(env, log, org)| ==> Org(env, OrgLog(env, log, org)[i]) == org
  {
    if log != [] {
      OrgLogOfOrg(env, log[..|log| - 1], org);
    }
  }

  lemma SelectedRows(env: Env, log: seq<Request>, org: string, start: Option<int>, end: Option<int>)
    ensures
      var rows := ReadChain(env, OrgLog(env, log, org));
      && SelectRows(env, Serial(env, log).rows, org, start, end) == InWindow(rows, start, end)
      && SelectRows(env, Serial(env, log).rows, org, None, None) == rows
      && Numbered(rows, org)
  {
    var writes := OrgLog(env, log, org);
    SerialHolds(env, log, org);
    OrgLogOfOrg(env, log, org);
    forall i | 0 <= i < |writes| ensures ChainOf(env, writes)[i].seqNum == i + 1 && ChainOf(env, writes)[i].org == org {
      ChainOfAt(env, writes, i);
    }
    SelectIsInWindow(env, Serial(env, log).rows, org, start, end);
    SelectIsInWindow(env, Serial(env, log).rows, org, None, None);
    NoWindow(ReadChain(env, writes));
    ReadAllNumbered(env, ChainOf(env, writes), org);
  }

  /**
   The chain left by any writes, and so by any run of ConsumeClaim and Write, verifies clean exactly
   when every accepted write of the organisation reads back as it was hashed.
   */
  lemma WritesVerifyIffFaithful(env: Env, log: seq<Request>, org: string)
    requires Sound(env, OrgLog(env, log, org))
    ensures
      var writes := OrgLog(env, log, org);
      Clean(env, SelectRows(env, Serial(env, log).rows, org, None, None)) <==>
      forall i :: 0 <= i < |writes| ==> Faithful(env, writes[i])
  {
    SelectedRows(env, log, org, None, None);
    WrittenChainIsClean(env, OrgLog(env, log, org));
  }

  /** The same for every interleaving of concurrent transactions. */
  lemma AnyRunVerifiesIffFaithful(env: Env, steps: seq<Step>, org: string)
    requires Sound(env, Commits(env, Run(env, steps).log, org))
    ensures
      var db := Run(env, steps);
      var writes := Commits(env, db.log, org);
      Clean(env, SelectRows(env, db.tables.rows, org, None, None)) <==>
      forall i :: 0 <= i < |writes| ==> Faithful(env, writes[i])
  {
    var db := Run(env, steps);
    RunKeepsInv(env, steps);
    CommitsAreAccepted(env, db.log, org);
    WritesVerifyIffFaithful(env, db.log, org);
  }

  /** On a faithful chain a date window is reported valid exactly when it selects a prefix of the chain. */
  lemma WindowVerdict(env: Env, log: seq<Request>, org: string, start: Option<int>, end: Option<int>)
    requires Sound(env, OrgLog(env, log, org))
    requires forall i :: 0 <= i < |OrgLog(env, log, org)| ==> Faithful(env, OrgLog(env, log, org)[i])
    ensures
      var table := Serial(env, log).rows;
      var window := SelectRows(env, table, org, start, end);
      Clean(env, window) <==> window <= SelectRows(env, table, org, None, None)
  {
    SelectedRows(env, log, org, start, end);
    WrittenChainIsClean(env, OrgLog(env, log, org));
    KeptVerdict(env, ReadChain(env, OrgLog(env, log, org)), org, start, end);
  }

  lemma KeptVerdict(env: Env, rows: seq<Row>, org: string, start: Option<int>, end: Option<int>)
    requires HexDigests(env) && Clean(env, rows) && Numbered(rows, org) && !Collision(env, rows, rows)
    ensures Clean(env, InWindow(rows, start, end)) <==> InWindow(rows, start, end) <= rows
  {
    var idx := InWindowIsKept(rows, start, end);
    WindowValidIffPrefix(env, rows, idx);
    ReportEmptyIffClean(env, Keep(rows, idx));
  }

  // ----- The payload the consumer writes, as a jsonb column prints it

  /** jsonb keeps shorter keys first and prints a space after each colon and comma; show is how it prints a string. */
  function JsonbText(show: string -> string, ev: UsageEvent): string {
    "{\"model\": " + show(ev.model) + ", \"status\": " + show(ev.status)
    + ", \"provider\": " + show(ev.provider)
    + ", \"dlp_violation\": " + (if ev.dlpViolation then "true" else "false")
    + ", \"policy_decision\": " + show(ev.policyDecision) + "}"
  }

  /** So no event consumed from the usage topic is faithful, whatever it carries. */
  lemma ConsumedPayloadIsNotFaithful(env: Env, quote: string -> string, show: string -> string,
                                     ev: UsageEvent, rowId: string)
    requires env.jsonText(PayloadText(quote, ev)) == JsonbText(show, ev)
    ensures !Faithful(env, ToRequest(quote, ev, rowId))
  {
    assert PayloadText(quote, ev)[2] == 'd';
    assert JsonbText(show, ev)[2] == 'm';
  }

  /** All the writes that a consumer with the chain to itself has committed. */
  function ConsumedLog(env: Env, quote: string -> string, ds: seq<Delivery>): seq<Request> {
    WritesOf(quote, ds, Successes(env, quote, EMPTY_TABLES, ds))
  }

  lemma {:induction false} OrgLogFrom(env: Env, log: seq<Request>, org: string, i: nat)
    requires i < |OrgLog(env, log, org)|
    ensures OrgLog(env, log, org)[i] in log
  {
    var m := |log| - 1;
    if i < |OrgLog(env, log[..m], org)| {
      OrgLogFrom(env, log[..m], org, i);
      assert log == log[..m] + [log[m]];
    }
  }

  lemma ConsumedTables(env: Env, quote: string -> string, ds: seq<Delivery>)
    ensures HandleAll(env, quote, EMPTY_TABLES, ds) == Serial(env, ConsumedLog(env, quote, ds))
  {
    ConsumingIsWriting(env, quote, EMPTY_TABLES, ds);
    SerialIsFold(env, ConsumedLog(env, quote, ds));
  }

  /** The consumer's rows of one organisation are the chain of its writes among the committed ones. */
  lemma ConsumedRows(env: Env, quote: string -> string, ds: seq<Delivery>, org: string)
    ensures SelectRows(env, HandleAll(env, quote, EMPTY_TABLES, ds).rows, org, None, None) ==
            ReadChain(env, OrgLog(env, ConsumedLog(env, quote, ds), org))
  {
    ConsumedTables(env, quote, ds);
    SelectedRows(env, ConsumedLog(env, quote, ds), org, None, None);
  }

  lemma ConsumedIsNotFaithful(env: Env, quote: string -> string, show: string -> string,
                              ds: seq<Delivery>, org: string, i: nat)
    requires i < |OrgLog(env, ConsumedLog(env, quote, ds), org)|
    requires forall ev :: env.jsonText(PayloadText(quote, ev)) == JsonbText(show, ev)
    ensures !Faithful(env, OrgLog(env, ConsumedLog(env, quote, ds), org)[i])
  {
    var log := ConsumedLog(env, quote, ds);
    OrgLogFrom(env, log, org, i);
    var k := WriteOfSome(quote, ds, Successes(env, quote, EMPTY_TABLES, ds), OrgLog(env, log, org)[i]);
    ConsumedPayloadIsNotFaithful(env, quote, show, ds[k].msg.event.value, ds[k].rowId);
  }

  /**
   Then a chain written by the consumer alone, whatever it consumed and whatever failed, is reported with
   a hash mismatch at every single row.
   */
  lemma ConsumedChainNeverVerifies(env: Env, quote: string -> string, show: string -> string,
                                   ds: seq<Delivery>, org: string, i: nat)
    requires Sound(env, OrgLog(env, ConsumedLog(env, quote, ds), org))
    requires forall ev :: env.jsonText(PayloadText(quote, ev)) == JsonbText(show, ev)
    requires i < |SelectRows(env, HandleAll(env, quote, EMPTY_TABLES, ds).rows, org, None, None)|
    ensures
      var rows := SelectRows(env, HandleAll(env, quote, EMPTY_TABLES, ds).rows, org, None, None);
      ViolationsAt(env, rows, i) == [HashMismatchOf(env, rows[i])]
  {
    var writes := OrgLog(env, ConsumedLog(env, quote, ds), org);
    ConsumedRows(env, quote, ds, org);
    ConsumedIsNotFaithful(env, quote, show, ds, org, i);
    WrittenChainReport(env, writes, i);
  }
}

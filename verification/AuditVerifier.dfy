/** The audit chain verifier: its row loop, and exactly what it reports on filtered and altered chains. */
module AuditVerifier {
  import opened Wrappers
  import opened Folds
  import opened Text
  import opened AuditChain

  datatype Reason = SeqGap | PrevHashMismatch | HashMismatch | HmacMismatch

  /** What a violation shows as stored: a value of the row, or the numbers at a gap. */
  datatype Stored = Value(text: string) | Expected(expected: int, got: int)

  datatype Violation = Violation(seqNum: int, entryId: string, org: string, reason: Reason,
                                 stored: Stored, computed: string)

  datatype VerifyReport = VerifyReport(org: string, valid: bool, checked: nat, violations: seq<Violation>,
                                       start: Option<int>, end: Option<int>)

  datatype VerifyError = QueryFailed | ScanFailed

  // ----- The query: the rows of one organisation inside an optional window, by sequence number

  predicate Selected(r: Row, org: string, start: Option<int>, end: Option<int>) {
    r.org == org && (start.Some? ==> r.createdAt >= start.value) && (end.Some? ==> r.createdAt <= end.value)
  }

  /** What the SELECT hands back: the payload is printed by the jsonb column. */
  function ReadRow(env: Env, r: Row): Row {
    r.(payload := env.jsonText(r.payload))
  }

  function InsertBySeq(r: Row, rows: seq<Row>): seq<Row> {
    if rows == [] || r.seqNum < rows[0].seqNum then [r] + rows else [rows[0]] + InsertBySeq(r, rows[1..])
  }

  function SelectRows(env: Env, table: seq<Row>, org: string, start: Option<int>, end: Option<int>): seq<Row> {
    if table == [] then []
    else
      var rest := SelectRows(env, table[..|table| - 1], org, start, end);
      var last := table[|table| - 1];
      if Selected(last, org, start, end) then InsertBySeq(ReadRow(env, last), rest) else rest
  }

  /** The rows that the query asks for, as read, in no order. */
  function RowsWithin(env: Env, table: seq<Row>, org: string, start: Option<int>, end: Option<int>): multiset<Row> {
    if table == [] then multiset{}
    else
      var rest, r := RowsWithin(env, table[..|table| - 1], org, start, end), table[|table| - 1];
      if r.org == org && (start.Some? ==> start.value <= r.createdAt) && (end.Some? ==> r.createdAt <= end.value)
      then rest + multiset{ReadRow(env, r)} else rest
  }

  predicate Ascending(rows: seq<Row>) {
    forall i, j :: 0 <= i < j < |rows| ==> rows[i].seqNum <= rows[j].seqNum
  }

  predicate NumbersFrom(rows: seq<Row>, n: int) {
    forall i :: 0 <= i < |rows| ==> n <= rows[i].seqNum
  }

  lemma {:induction false} InsertBySeqAdds(r: Row, rows: seq<Row>)
    ensures multiset(InsertBySeq(r, rows)) == multiset(rows) + multiset{r}
  {
    if rows != [] && r.seqNum >= rows[0].seqNum {
      InsertBySeqAdds(r, rows[1..]);
      assert rows == [rows[0]] + rows[1..];
    }
  }

  lemma {:induction false} InsertBySeqBound(r: Row, rows: seq<Row>, n: int)
    requires NumbersFrom(rows, n) && n <= r.seqNum
    ensures NumbersFrom(InsertBySeq(r, rows), n)
  {
    if rows != [] && r.seqNum >= rows[0].seqNum {
      InsertBySeqBound(r, rows[1..], n);
    }
  }

  lemma {:induction false} InsertBySeqSorts(r: Row, rows: seq<Row>)
    requires Ascending(rows)
    ensures Ascending(InsertBySeq(r, rows))
  {
    if rows != [] && r.seqNum >= rows[0].seqNum {
      InsertBySeqSorts(r, rows[1..]);
      InsertBySeqBound(r, rows[1..], rows[0].seqNum);
      assert NumbersFrom(InsertBySeq(r, rows[1..]), rows[0].seqNum);
    }
  }

  lemma {:induction false} SelectAddsUp(env: Env, table: seq<Row>, org: string, start: Option<int>, end: Option<int>)
    ensures multiset(SelectRows(env, table, org, start, end)) == RowsWithin(env, table, org, start, end)
    ensures Ascending(SelectRows(env, table, org, start, end))
  {
    if table != [] {
      var m := |table| - 1;
      var rest := SelectRows(env, table[..m], org, start, end);
      SelectAddsUp(env, table[..m], org, start, end);
      InsertBySeqAdds(ReadRow(env, table[m]), rest);
      InsertBySeqSorts(ReadRow(env, table[m]), rest);
    }
  }

  /** The query returns exactly the organisation's rows inside the window, bounds included, by rising number. */
  lemma SelectIsWithin(env: Env, table: seq<Row>, org: string, start: Option<int>, end: Option<int>)
    ensures
      var rows := SelectRows(env, table, org, start, end);
      && multiset(rows) == RowsWithin(env, table, org, start, end)
      && forall i, j :: 0 <= i < j < |rows| ==> rows[i].seqNum <= rows[j].seqNum
  {
    SelectAddsUp(env, table, org, start, end);
  }

  // ----- The violations of one row, given the row read before it

  function GapViolation(prevSeq: int, r: Row): Violation {
    Violation(r.seqNum, r.id, r.org, SeqGap, Expected(prevSeq + 1, r.seqNum), "")
  }

  function LinkViolation(prevHash: string, r: Row): Violation {
    Violation(r.seqNum, r.id, r.org, PrevHashMismatch, Value(r.prev), prevHash)
  }

  function HashViolation(env: Env, r: Row): Violation {
    Violation(r.seqNum, r.id, r.org, HashMismatch, Value(r.hash), env.sha(RowText(r)))
  }

  function MacViolation(r: Row): Violation {
    Violation(r.seqNum, r.id, r.org, HmacMismatch, Value(r.sig), "")
  }

  /** The text of the report. */
  function Shown(stored: Stored): string {
    match stored
    case Value(text) => text
    case Expected(expected, got) => "expected seq " + PrintInt(expected) + ", got " + PrintInt(got)
  }

  lemma PrintIntHasNoComma(n: int)
    ensures ',' !in PrintInt(n)
  {
  }

  lemma ShownParts(a: int, b: int)
    ensures Shown(Expected(a, b)) == "expected seq " + (PrintInt(a) + [','] + (" got " + PrintInt(b)))
  {
    var n, n' := PrintInt(a), PrintInt(b);
    assert ", got " == [','] + " got ";
    assert "expected seq " + n + ([','] + " got ") + n' == "expected seq " + (n + [','] + (" got " + n'));
  }

  /** Both numbers of a gap can be read off its text. */
  lemma ShownGapIsUnique(a: int, b: int, c: int, d: int)
    requires Shown(Expected(a, b)) == Shown(Expected(c, d))
    ensures a == c && b == d
  {
    ShownParts(a, b);
    ShownParts(c, d);
    PrintIntHasNoComma(a);
    PrintIntHasNoComma(c);
    GapPartsUnique("expected seq ", PrintInt(a), " got ", PrintInt(b), PrintInt(c), PrintInt(d));
    PrintIntInjective(a, c);
    PrintIntInjective(b, d);
  }

  lemma GapPartsUnique(lead: string, x: string, mid: string, y: string, x': string, y': string)
    requires ',' !in x && ',' !in x'
    requires lead + (x + [','] + (mid + y)) == lead + (x' + [','] + (mid + y'))
    ensures x == x' && y == y'
  {
    CutLead(lead, x + [','] + (mid + y), x' + [','] + (mid + y'));
    FirstSplitUnique(x, mid + y, x', mid + y', ',');
    CutLead(mid, y, y');
  }

  lemma CutLead(lead: string, a: string, b: string)
    ensures lead + a == lead + b ==> a == b
  {
    assert a == (lead + a)[|lead|..] && b == (lead + b)[|lead|..];
  }

  function GapPart(prevSeq: int, r: Row): seq<Violation> {
    if prevSeq > 0 && r.seqNum != prevSeq + 1 then [GapViolation(prevSeq, r)] else []
  }

  function LinkPart(prevHash: string, r: Row): seq<Violation> {
    if r.prev != prevHash then [LinkViolation(prevHash, r)] else []
  }

  function HashPart(env: Env, r: Row): seq<Violation> {
    if env.sha(RowText(r)) != r.hash then [HashViolation(env, r)] else []
  }

  function MacPart(env: Env, r: Row): seq<Violation> {
    if env.sign(r.hash) != r.sig then [MacViolation(r)] else []
  }

  function RowViolations(env: Env, prevHash: string, prevSeq: int, r: Row): seq<Violation> {
    Concat([GapPart(prevSeq, r), LinkPart(prevHash, r), HashPart(env, r), MacPart(env, r)], 4)
  }

  lemma RowViolationsAre(env: Env, prevHash: string, prevSeq: int, r: Row)
    ensures RowViolations(env, prevHash, prevSeq, r) ==
            GapPart(prevSeq, r) + LinkPart(prevHash, r) + HashPart(env, r) + MacPart(env, r)
  {
    ConcatFour(GapPart(prevSeq, r), LinkPart(prevHash, r), HashPart(env, r), MacPart(env, r));
  }

  function ViolationsAt(env: Env, rows: seq<Row>, i: nat): seq<Violation>
    requires i < |rows|
  {
    RowViolations(env, HashBefore(rows, i), SeqBefore(rows, i), rows[i])
  }

  /** What the loop remembers of the row read before. */
  datatype Seen = Seen(hash: string, seqNum: int)

  function Before(rows: seq<Row>, n: nat): Seen
    requires n <= |rows|
  {
    Seen(HashBefore(rows, n), SeqBefore(rows, n))
  }

  /** The violations of each row. */
  function ByRow(env: Env, rows: seq<Row>): nat -> seq<Violation> {
    (i: nat) => if i < |rows| then ViolationsAt(env, rows, i) else []
  }

  function Report(env: Env, rows: seq<Row>): seq<Violation> {
    Gather(ByRow(env, rows), |rows|)
  }

  /** A report with more violations: it stays valid only if there are none. */
  function Extended(report: VerifyReport, more: seq<Violation>): VerifyReport {
    report.(valid := report.valid && |more| == 0, violations := report.violations + more)
  }

  lemma ExtendTwice(report: VerifyReport, a: seq<Violation>, b: seq<Violation>)
    ensures Extended(report, []) == report
    ensures Extended(Extended(report, a), b) == Extended(report, a + b)
  {
    assert report.violations + [] == report.violations;
    assert report.violations + a + b == report.violations + (a + b);
    assert |a + b| == |a| + |b|;
  }

  /** The report after the first n rows, when f gives the violations of each. */
  function ReportUpTo(f: nat -> seq<Violation>, empty: VerifyReport, n: nat): VerifyReport {
    if n == 0 then empty else Extended(ReportUpTo(f, empty, n - 1), f(n - 1))
  }

  lemma {:induction false} ReportUpToIs(f: nat -> seq<Violation>, empty: VerifyReport, n: nat)
    ensures ReportUpTo(f, empty, n) == Extended(empty, Gather(f, n))
  {
    if n == 0 {
      ExtendTwice(empty, [], []);
    } else {
      ReportUpToIs(f, empty, n - 1);
      ExtendTwice(empty, Gather(f, n - 1), f(n - 1));
    }
  }

  /** The state of the row loop. */
  datatype Walk = Walk(report: VerifyReport, prev: Seen)

  function Turned(env: Env, w: Walk, row: Row): Walk {
    Walk(Extended(w.report, RowViolations(env, w.prev.hash, w.prev.seqNum, row)), Seen(row.hash, row.seqNum))
  }

  function WalkUpTo(env: Env, empty: VerifyReport, rows: seq<Row>, n: nat): Walk
    requires n <= |rows|
  {
    if n == 0 then Walk(empty, Seen("", 0)) else Turned(env, WalkUpTo(env, empty, rows, n - 1), rows[n - 1])
  }

  lemma TurnedAt(env: Env, report: VerifyReport, rows: seq<Row>, n: nat)
    requires n < |rows|
    ensures Turned(env, Walk(report, Before(rows, n)), rows[n]) ==
            Walk(Extended(report, ByRow(env, rows)(n)), Before(rows, n + 1))
  {
  }

  lemma {:induction false} WalkUpToIs(env: Env, empty: VerifyReport, rows: seq<Row>, n: nat)
    requires n <= |rows|
    ensures WalkUpTo(env, empty, rows, n) == Walk(ReportUpTo(ByRow(env, rows), empty, n), Before(rows, n))
  {
    if n > 0 {
      WalkUpToIs(env, empty, rows, n - 1);
      TurnedAt(env, ReportUpTo(ByRow(env, rows), empty, n - 1), rows, n - 1);
    }
  }

  /** The loop ends with the violations of all rows, each checked against the row before it. */
  lemma WalkIsReport(env: Env, empty: VerifyReport, rows: seq<Row>)
    ensures WalkUpTo(env, empty, rows, |rows|).report == Extended(empty, Report(env, rows))
  {
    WalkUpToIs(env, empty, rows, |rows|);
    ReportUpToIs(ByRow(env, rows), empty, |rows|);
  }

  class Verifier {
    const env: Env

    constructor (env: Env)
      ensures this.env == env
    {
      this.env := env;
    }

    /** The body of the row loop: the four checks of one row against the row read before it. */
    method CheckRow(report: VerifyReport, prevHash: string, prevSeq: int, row: Row) returns (report': VerifyReport)
      ensures report' == Extended(report, RowViolations(env, prevHash, prevSeq, row))
    {
      ghost var gap, link, hash := GapPart(prevSeq, row), LinkPart(prevHash, row), HashPart(env, row);
      RowViolationsAre(env, prevHash, prevSeq, row);
      ExtendTwice(report, gap, link);
      ExtendTwice(report, gap + link, hash);
      ExtendTwice(report, gap + link + hash, MacPart(env, row));
      report' := report;
      if prevSeq > 0 && row.seqNum != prevSeq + 1 {
        report' := Extended(report', [GapViolation(prevSeq, row)]);
      }
      assert report' == Extended(report, gap);
      if row.prev != prevHash {
        report' := Extended(report', [LinkViolation(prevHash, row)]);
      }
      assert report' == Extended(report, gap + link);
      var computed := env.sha(RowText(row));
      if computed != row.hash {
        var violation := Violation(row.seqNum, row.id, row.org, HashMismatch, Value(row.hash), computed);
        report' := Extended(report', [violation]);
      }
      assert report' == Extended(report, gap + link + hash);
      var expectedMac := env.sign(row.hash);
      if expectedMac != row.sig {
        report' := Extended(report', [MacViolation(row)]);
      }
    }

    /** One turn of the row loop. */
    method Turn(report: VerifyReport, prev: Seen, row: Row) returns (report': VerifyReport, prev': Seen)
      ensures Walk(report', prev') == Turned(env, Walk(report, prev), row)
    {
      report' := CheckRow(report, prev.hash, prev.seqNum, row);
      prev' := Seen(row.hash, row.seqNum);
    }

    /** The row loop. failAt is the number of rows after which the cursor breaks, if it does. */
    method WalkRows(empty: VerifyReport, rows: seq<Row>, failAt: Option<nat>)
      returns (failed: bool, report: VerifyReport)
      ensures failed <==> failAt.Some? && failAt.value <= |rows|
      ensures !failed ==> report == Extended(empty, Report(env, rows)).(checked := |rows|)
    {
      report := empty;
      var prev, checked := Seen("", 0), 0;
      while checked < |rows|
        invariant 0 <= checked <= |rows|
        invariant failAt.Some? ==> checked <= failAt.value
        invariant Walk(report, prev) == WalkUpTo(env, empty, rows, checked)
      {
        if failAt == Some(checked) {
          failed := true;
          return;
        }
        report, prev := Turn(report, prev, rows[checked]);
        checked := checked + 1;
      }
      failed := failAt == Some(checked);
      WalkIsReport(env, empty, rows);
      report := report.(checked := checked);
    }

    method Verify(table: seq<Row>, org: string, start: Option<int>, end: Option<int>,
                  queryOk: bool, failAt: Option<nat>)
      returns (res: Result<VerifyReport, VerifyError>)
      ensures !queryOk ==> res == Err(QueryFailed)
      ensures queryOk ==>
        var rows := SelectRows(env, table, org, start, end);
        if failAt.Some? && failAt.value <= |rows| then res == Err(ScanFailed)
        else
          && res.Ok?
          && res.value.org == org && res.value.start == start && res.value.end == end
          && res.value.checked == |rows|
          && res.value.violations == Report(env, rows)
          && (res.value.valid <==> res.value.violations == [])
          && (res.value.valid <==> Clean(env, rows))
    {
      if !queryOk {
        return Err(QueryFailed);
      }
      var rows := SelectRows(env, table, org, start, end);
      var failed, report := WalkRows(VerifyReport(org, true, 0, [], start, end), rows, failAt);
      if failed {
        return Err(ScanFailed);
      }
      ReportEmptyIffClean(env, rows);
      return Ok(report);
    }
  }

  // ----- Which checks a row can fail

  /** A row that is linked, numbered and signed can only fail the hash check. */
  lemma OnlyHashCanFail(env: Env, rows: seq<Row>, i: nat)
    requires i < |rows| && rows[i].prev == HashBefore(rows, i) && rows[i].sig == env.sign(rows[i].hash)
    requires SeqBefore(rows, i) > 0 ==> rows[i].seqNum == SeqBefore(rows, i) + 1
    ensures ViolationsAt(env, rows, i) == HashPart(env, rows[i])
  {
    RowViolationsAre(env, HashBefore(rows, i), SeqBefore(rows, i), rows[i]);
  }

  /** A row that is hashed and signed can only fail the two checks against its predecessor. */
  lemma OnlyPlaceCanFail(env: Env, rows: seq<Row>, i: nat)
    requires i < |rows| && rows[i].hash == env.sha(RowText(rows[i])) && rows[i].sig == env.sign(rows[i].hash)
    ensures ViolationsAt(env, rows, i) == GapPart(SeqBefore(rows, i), rows[i]) + LinkPart(HashBefore(rows, i), rows[i])
  {
    RowViolationsAre(env, HashBefore(rows, i), SeqBefore(rows, i), rows[i]);
  }

  /** A row that is linked, numbered and hashed can only fail the signature check. */
  lemma OnlyMacCanFail(env: Env, rows: seq<Row>, i: nat)
    requires i < |rows| && rows[i].prev == HashBefore(rows, i) && rows[i].hash == env.sha(RowText(rows[i]))
    requires SeqBefore(rows, i) > 0 ==> rows[i].seqNum == SeqBefore(rows, i) + 1
    ensures ViolationsAt(env, rows, i) == MacPart(env, rows[i])
  {
    RowViolationsAre(env, HashBefore(rows, i), SeqBefore(rows, i), rows[i]);
  }

  // ----- The report is empty exactly on clean rows

  lemma ByRowAt(env: Env, rows: seq<Row>, i: nat)
    requires i < |rows|
    ensures ByRow(env, rows)(i) == ViolationsAt(env, rows, i)
  {
  }

  lemma NoneBelowIff(f: nat -> seq<Violation>, parts: seq<seq<Violation>>)
    requires forall i: nat :: i < |parts| ==> f(i) == parts[i]
    ensures Gather(f, |parts|) == [] <==> forall i :: 0 <= i < |parts| ==> parts[i] == []
  {
    GatherEmptyIff(f, |parts|);
    assert forall i: nat :: i < |parts| ==> (f(i) == [] <==> parts[i] == []);
  }

  lemma ReportEmptyIff(env: Env, rows: seq<Row>)
    ensures Report(env, rows) == [] <==> forall i :: 0 <= i < |rows| ==> ViolationsAt(env, rows, i) == []
  {
    var parts := seq(|rows|, i requires 0 <= i < |rows| => ViolationsAt(env, rows, i));
    forall i: nat | i < |rows| ensures ByRow(env, rows)(i) == parts[i] {
      ByRowAt(env, rows, i);
    }
    NoneBelowIff(ByRow(env, rows), parts);
    assert forall i :: 0 <= i < |rows| ==> parts[i] == ViolationsAt(env, rows, i);
  }

  lemma NoneAtIff(env: Env, rows: seq<Row>, i: nat)
    requires i < |rows|
    ensures ViolationsAt(env, rows, i) == [] <==> LinkedAt(env, rows, i)
  {
    var h, n, r := HashBefore(rows, i), SeqBefore(rows, i), rows[i];
    RowViolationsAre(env, h, n, r);
    assert |ViolationsAt(env, rows, i)| ==
           |GapPart(n, r)| + |LinkPart(h, r)| + |HashPart(env, r)| + |MacPart(env, r)|;
  }

  lemma ReportEmptyIffClean(env: Env, rows: seq<Row>)
    ensures Report(env, rows) == [] <==> Clean(env, rows)
  {
    ReportEmptyIff(env, rows);
    forall i | 0 <= i < |rows| ensures ViolationsAt(env, rows, i) == [] <==> LinkedAt(env, rows, i) {
      NoneAtIff(env, rows, i);
    }
  }

  /** When only row k has violations, they are the whole report. */
  lemma ReportOfOneRow(env: Env, rows: seq<Row>, k: nat)
    requires k < |rows|
    requires forall i :: 0 <= i < |rows| && i != k ==> ViolationsAt(env, rows, i) == []
    ensures Report(env, rows) == ViolationsAt(env, rows, k)
  {
    GatherOne(ByRow(env, rows), k, |rows|);
  }

  // ----- Deleted rows and date windows

  /** The positions kept out of n, in order. */
  ghost predicate Positions(idx: seq<nat>, n: nat) {
    (forall j :: 0 <= j < |idx| ==> idx[j] < n) && (forall j, k :: 0 <= j < k < |idx| ==> idx[j] < idx[k])
  }

  ghost function Keep(rows: seq<Row>, idx: seq<nat>): seq<Row>
    requires forall j :: 0 <= j < |idx| ==> idx[j] < |rows|
  {
    seq(|idx|, j requires 0 <= j < |idx| => rows[idx[j]])
  }

  /** Is the row before the j-th kept one kept as well (or is there none)? */
  ghost predicate PredecessorKept(idx: seq<nat>, j: nat)
    requires j < |idx|
  {
    if j == 0 then idx[0] == 0 else idx[j] == idx[j - 1] + 1
  }

  ghost function GapsAt(chain: seq<Row>, idx: seq<nat>, j: nat): seq<Violation>
    requires Positions(idx, |chain|) && j < |idx|
  {
    var r := chain[idx[j]];
    if PredecessorKept(idx, j) then []
    else if j == 0 then [Violation(r.seqNum, r.id, r.org, PrevHashMismatch, Value(r.prev), "")]
    else
      var p := chain[idx[j - 1]];
      [Violation(r.seqNum, r.id, r.org, SeqGap, Expected(p.seqNum + 1, r.seqNum), ""),
       Violation(r.seqNum, r.id, r.org, PrevHashMismatch, Value(r.prev), p.hash)]
  }

  lemma HashesDiffer(env: Env, chain: seq<Row>, i: nat, k: nat)
    requires FullChain(env, chain) && !Collision(env, chain, chain)
    requires i < |chain| && k < |chain| && i != k
    ensures chain[i].hash != chain[k].hash
  {
    assert LinkedAt(env, chain, i) && LinkedAt(env, chain, k);
    assert !Collides(env, chain[i], chain[k]);
    if RowText(chain[i]) == RowText(chain[k]) {
      SeqNumInText(chain[i], chain[k]);
    }
  }

  /**
   Verifying any rows kept from a full chain reports exactly a gap and a broken link where the
   predecessor was dropped (a broken link alone on the first kept row), and nothing anywhere else.
   */
  lemma SubsequenceReport(env: Env, chain: seq<Row>, idx: seq<nat>, j: nat)
    requires HexDigests(env) && FullChain(env, chain) && !Collision(env, chain, chain)
    requires Positions(idx, |chain|) && j < |idx|
    ensures ViolationsAt(env, Keep(chain, idx), j) == GapsAt(chain, idx, j)
  {
    var i := idx[j];
    LinkBroken(env, chain, idx, j);
    assert LinkedAt(env, chain, i);
    OnlyPlaceCanFail(env, Keep(chain, idx), j);
    assert GapPart(SeqBefore(Keep(chain, idx), j), chain[i]) ==
           if j == 0 || PredecessorKept(idx, j) then [] else [GapViolation(chain[idx[j - 1]].seqNum, chain[i])];
  }

  lemma LinkBroken(env: Env, chain: seq<Row>, idx: seq<nat>, j: nat)
    requires HexDigests(env) && FullChain(env, chain) && !Collision(env, chain, chain)
    requires Positions(idx, |chain|) && j < |idx|
    ensures chain[idx[j]].prev == HashBefore(Keep(chain, idx), j) <==> PredecessorKept(idx, j)
  {
    var i := idx[j];
    assert LinkedAt(env, chain, i);
    if j == 0 {
      if i > 0 {
        assert LinkedAt(env, chain, i - 1);
      }
    } else {
      assert idx[j - 1] < idx[j];
      if idx[j - 1] != i - 1 {
        HashesDiffer(env, chain, i - 1, idx[j - 1]);
      }
    }
  }

  /**
   A window is reported valid exactly when it is a prefix: one that starts later is reported as
   broken although no row was touched, and rows cut off the end go unnoticed.
   */
  lemma WindowValidIffPrefix(env: Env, chain: seq<Row>, idx: seq<nat>)
    requires HexDigests(env) && FullChain(env, chain) && !Collision(env, chain, chain)
    requires Positions(idx, |chain|)
    ensures Report(env, Keep(chain, idx)) == [] <==> Keep(chain, idx) <= chain
  {
    ReportEmptyIff(env, Keep(chain, idx));
    forall j | 0 <= j < |idx| ensures ViolationsAt(env, Keep(chain, idx), j) == [] <==> PredecessorKept(idx, j) {
      SubsequenceReport(env, chain, idx, j);
    }
    KeptIsPrefixIff(chain, idx);
  }

  /** Every predecessor is kept exactly when the kept rows are a prefix. */
  lemma KeptIsPrefixIff(chain: seq<Row>, idx: seq<nat>)
    requires Positions(idx, |chain|) && forall i :: 0 <= i < |chain| ==> chain[i].seqNum == i + 1
    ensures (forall j :: 0 <= j < |idx| ==> PredecessorKept(idx, j)) <==> Keep(chain, idx) <= chain
  {
    PositionsBound(idx, |chain|);
    if forall j :: 0 <= j < |idx| ==> PredecessorKept(idx, j) {
      AllKeptIsPrefix(idx, |idx|);
    } else {
      var j :| 0 <= j < |idx| && !PredecessorKept(idx, j);
      var i := if j > 0 && idx[j] == j then j - 1 else j;
      assert idx[i] != i;
      assert Keep(chain, idx)[i].seqNum == idx[i] + 1 && chain[i].seqNum == i + 1;
    }
  }

  lemma PositionsBound(idx: seq<nat>, n: nat)
    requires Positions(idx, n)
    ensures |idx| <= n
    ensures forall j :: 0 <= j < |idx| ==> j <= idx[j]
  {
    if idx != [] {
      var m := |idx| - 1;
      PositionsBound(idx[..m], idx[m]);
      assert forall j :: 0 <= j < m ==> idx[..m][j] == idx[j];
    }
  }

  lemma AllKeptIsPrefix(idx: seq<nat>, n: nat)
    requires n <= |idx| && forall j :: 0 <= j < n ==> PredecessorKept(idx, j)
    ensures forall j :: 0 <= j < n ==> idx[j] == j
  {
    if n > 0 {
      AllKeptIsPrefix(idx, n - 1);
      assert PredecessorKept(idx, n - 1);
    }
  }

  // ----- One altered row

  /** Row k with another event type or payload, its stored hash and signature left as they were. */
  ghost predicate Altered(env: Env, chain: seq<Row>, k: nat, r: Row) {
    && k < |chain|
    && r == chain[k].(event := r.event, payload := r.payload)
    && !SameContent(r, chain[k]) && BarFree(r) && BarFree(chain[k])
    && !Collides(env, r, chain[k])
  }

  lemma AlteredDigest(env: Env, chain: seq<Row>, k: nat, r: Row)
    requires Clean(env, chain) && Altered(env, chain, k, r)
    ensures env.sha(RowText(r)) != chain[k].hash
  {
    assert LinkedAt(env, chain, k);
    if RowText(r) == RowText(chain[k]) {
      RawTextInjective(r, chain[k]);
    }
  }

  /** Altering one row gives exactly one violation, at that row: later hashes are not invalidated. */
  lemma AlteredRowReport(env: Env, chain: seq<Row>, k: nat, r: Row)
    requires Clean(env, chain) && Altered(env, chain, k, r)
    ensures Report(env, chain[k := r]) ==
            [Violation(r.seqNum, r.id, r.org, HashMismatch, Value(r.hash), env.sha(RowText(r)))]
  {
    var rows := chain[k := r];
    AlteredDigest(env, chain, k, r);
    forall i | 0 <= i < |rows| && i != k ensures ViolationsAt(env, rows, i) == [] {
      assert LinkedAt(env, chain, i);
      OnlyHashCanFail(env, rows, i);
    }
    assert LinkedAt(env, chain, k);
    OnlyHashCanFail(env, rows, k);
    ReportOfOneRow(env, rows, k);
  }

  /** Another signature alone gives exactly one violation, at that row. */
  lemma ForgedSignatureReport(env: Env, chain: seq<Row>, k: nat, sig: string)
    requires Clean(env, chain) && k < |chain| && sig != chain[k].sig
    ensures
      var r := chain[k].(sig := sig);
      Report(env, chain[k := r]) == [Violation(r.seqNum, r.id, r.org, HmacMismatch, Value(sig), "")]
  {
    var rows := chain[k := chain[k].(sig := sig)];
    forall i | 0 <= i < |rows| && i != k ensures ViolationsAt(env, rows, i) == [] {
      assert LinkedAt(env, chain, i);
      NoneAtIff(env, rows, i);
    }
    assert LinkedAt(env, chain, k);
    OnlyMacCanFail(env, rows, k);
    ReportOfOneRow(env, rows, k);
  }

  /** Row k altered, with its hash and signature recomputed to match. */
  function Resealed(env: Env, r: Row): Row {
    r.(hash := env.sha(RowText(r)), sig := env.sign(env.sha(RowText(r))))
  }

  lemma ResealedViolations(env: Env, chain: seq<Row>, k: nat, r: Row, i: nat)
    requires Clean(env, chain) && Altered(env, chain, k, r) && i < |chain|
    ensures ViolationsAt(env, chain[k := Resealed(env, r)], i) ==
            if i == k + 1 then [LinkViolation(env.sha(RowText(r)), chain[i])] else []
  {
    assert LinkedAt(env, chain, i);
    assert RowText(Resealed(env, r)) == RowText(r);
    OnlyPlaceCanFail(env, chain[k := Resealed(env, r)], i);
    if i == k + 1 {
      AlteredDigest(env, chain, k, r);
    }
  }

  /** Resealing the altered row moves the one violation to the link of the next row, if there is one. */
  lemma ResealedRowReport(env: Env, chain: seq<Row>, k: nat, r: Row)
    requires Clean(env, chain) && Altered(env, chain, k, r)
    ensures Report(env, chain[k := Resealed(env, r)]) ==
            if k + 1 < |chain| then
              var next := chain[k + 1];
              [Violation(next.seqNum, next.id, next.org, PrevHashMismatch, Value(next.prev), env.sha(RowText(r)))]
            else []
  {
    var rows := chain[k := Resealed(env, r)];
    forall i | 0 <= i < |rows|
      ensures ViolationsAt(env, rows, i) ==
              if i == k + 1 then [LinkViolation(env.sha(RowText(r)), chain[i])] else []
    {
      ResealedViolations(env, chain, k, r, i);
    }
    if k + 1 < |rows| {
      ReportOfOneRow(env, rows, k + 1);
    } else {
      ReportEmptyIff(env, rows);
    }
  }
}

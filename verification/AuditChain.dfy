/** The audit_log_chain rows, the text each row hashes, and how far that text fixes the row. */
module AuditChain {
  import opened Wrappers
  import opened Text

  /** json.Marshal may fail, so the payload text is optional. */
  datatype Entry = Entry(org: string, event: string, payload: Option<string>, at: int)

  datatype Row = Row(id: string, seqNum: int, org: string, event: string, payload: string,
                     prev: string, hash: string, sig: string, createdAt: int)

  /**
   What the code calls but does not define: sha is hex(SHA-256(text)), sign is hex(HMAC-SHA256(key, text)),
   orgText is how the uuid column prints an organisation id, jsonText how the jsonb column prints a payload.
   */
  datatype Env = Env(sha: string -> string, sign: string -> string,
                     orgText: string -> string, jsonText: string -> string)

  /** A digest in hex is not empty and has no separator in it. */
  ghost predicate HexDigests(env: Env) {
    forall x: string :: env.sha(x) != "" && '|' !in env.sha(x)
  }

  /** The fields from the k-th on, joined by the separator. */
  function JoinFrom(fields: seq<string>, k: nat): string
    decreases |fields| - k
  {
    if k >= |fields| then ""
    else if k == |fields| - 1 then fields[k] else fields[k] + "|" + JoinFrom(fields, k + 1)
  }

  /** The hashed text: seq|org|type|payload|prev. */
  function RawText(seqNum: int, org: string, event: string, payload: string, prev: string): string {
    JoinFrom([PrintInt(seqNum), org, event, payload, prev], 0)
  }

  /** The text written out. */
  lemma RawTextIs(seqNum: int, org: string, event: string, payload: string, prev: string)
    ensures RawText(seqNum, org, event, payload, prev) ==
            PrintInt(seqNum) + "|" + (org + "|" + (event + "|" + (payload + "|" + prev)))
  {
    var fields := [PrintInt(seqNum), org, event, payload, prev];
    assert JoinFrom(fields, 4) == prev;
    assert JoinFrom(fields, 3) == payload + "|" + prev;
    assert JoinFrom(fields, 2) == event + "|" + JoinFrom(fields, 3);
    assert JoinFrom(fields, 1) == org + "|" + JoinFrom(fields, 2);
  }

  /** A field without the separator can be read off where the text is known from there on. */
  lemma PeelField(a: seq<string>, b: seq<string>, k: nat)
    requires k + 1 < |a| == |b| && '|' !in a[k] && '|' !in b[k] && JoinFrom(a, k) == JoinFrom(b, k)
    ensures a[k] == b[k] && JoinFrom(a, k + 1) == JoinFrom(b, k + 1)
  {
    assert JoinFrom(a, k) == a[k] + ['|'] + JoinFrom(a, k + 1);
    assert JoinFrom(b, k) == b[k] + ['|'] + JoinFrom(b, k + 1);
    FirstSplitUnique(a[k], JoinFrom(a, k + 1), b[k], JoinFrom(b, k + 1), '|');
  }

  function Fields(r: Row): seq<string> {
    [PrintInt(r.seqNum), r.org, r.event, r.payload, r.prev]
  }

  function RowText(r: Row): string {
    RawText(r.seqNum, r.org, r.event, r.payload, r.prev)
  }

  /** The fields the hash covers. */
  predicate SameContent(r: Row, s: Row) {
    && r.seqNum == s.seqNum && r.org == s.org && r.event == s.event
    && r.payload == s.payload && r.prev == s.prev
  }

  predicate BarFree(r: Row) {
    '|' !in r.org && '|' !in r.event && '|' !in r.prev
  }

  /** The number is always the part before the first separator. */
  lemma SeqNumInText(r: Row, s: Row)
    requires RowText(r) == RowText(s)
    ensures r.seqNum == s.seqNum && JoinFrom(Fields(r), 1) == JoinFrom(Fields(s), 1)
  {
    PrintIntHasNoBar(r.seqNum);
    PrintIntHasNoBar(s.seqNum);
    PeelField(Fields(r), Fields(s), 0);
    PrintIntInjective(r.seqNum, s.seqNum);
  }

  lemma LastFields(r: Row)
    ensures JoinFrom(Fields(r), 3) == r.payload + ['|'] + r.prev
  {
    assert JoinFrom(Fields(r), 4) == r.prev;
  }

  /** The payload may contain the separator: it lies between the third and the last one. */
  lemma RawTextInjective(r: Row, s: Row)
    requires BarFree(r) && BarFree(s)
    requires RowText(r) == RowText(s)
    ensures SameContent(r, s)
  {
    SeqNumInText(r, s);
    PeelField(Fields(r), Fields(s), 1);
    PeelField(Fields(r), Fields(s), 2);
    LastFields(r);
    LastFields(s);
    LastSplitUnique(r.payload, r.prev, s.payload, s.prev, '|');
  }

  /**
   The restriction on the event type is needed: any row whose event type contains the separator
   shares its hashed text with a row that differs in event type and payload alone.
   */
  lemma BarInEventIsAmbiguous(r: Row, k: nat)
    requires k < |r.event| && r.event[k] == '|'
    ensures var s := r.(event := r.event[..k], payload := r.event[k + 1..] + "|" + r.payload);
            RowText(s) == RowText(r) && !SameContent(r, s)
  {
    var s := r.(event := r.event[..k], payload := r.event[k + 1..] + "|" + r.payload);
    var left, right := r.event[..k], r.event[k + 1..];
    LastFields(r);
    LastFields(s);
    assert r.event == left + "|" + right;
    assert JoinFrom(Fields(r), 2) == r.event + "|" + (r.payload + ['|'] + r.prev);
    assert JoinFrom(Fields(s), 2) == left + "|" + (right + "|" + r.payload + ['|'] + r.prev);
    assert JoinFrom(Fields(r), 2) == JoinFrom(Fields(s), 2);
    assert JoinFrom(Fields(r), 1) == r.org + "|" + JoinFrom(Fields(r), 2);
    assert JoinFrom(Fields(s), 1) == r.org + "|" + JoinFrom(Fields(s), 2);
    assert |s.event| < |r.event|;
  }

  /** The two rows hash different texts to the same digest. */
  predicate Collides(env: Env, r: Row, s: Row) {
    RowText(r) != RowText(s) && env.sha(RowText(r)) == env.sha(RowText(s))
  }

  /** Some row of each list collide. */
  ghost predicate Collision(env: Env, a: seq<Row>, b: seq<Row>) {
    exists i, j :: 0 <= i < |a| && 0 <= j < |b| && Collides(env, a[i], b[j])
  }

  /** The hash that the row at position i must carry as its prev_hash. */
  function HashBefore(rows: seq<Row>, i: nat): string
    requires i <= |rows|
  {
    if i == 0 then "" else rows[i - 1].hash
  }

  function SeqBefore(rows: seq<Row>, i: nat): int
    requires i <= |rows|
  {
    if i == 0 then 0 else rows[i - 1].seqNum
  }

  /** Row i is linked, correctly hashed and signed, and follows a positive number by one. */
  predicate LinkedAt(env: Env, rows: seq<Row>, i: nat)
    requires i < |rows|
  {
    && rows[i].prev == HashBefore(rows, i)
    && (SeqBefore(rows, i) > 0 ==> rows[i].seqNum == SeqBefore(rows, i) + 1)
    && rows[i].hash == env.sha(RowText(rows[i]))
    && rows[i].sig == env.sign(rows[i].hash)
  }

  ghost predicate Clean(env: Env, rows: seq<Row>) {
    forall i :: 0 <= i < |rows| ==> LinkedAt(env, rows, i)
  }

  /** The whole chain of one organisation: clean and numbered 1, 2, ... */
  ghost predicate FullChain(env: Env, rows: seq<Row>) {
    Clean(env, rows) && forall i :: 0 <= i < |rows| ==> rows[i].seqNum == i + 1
  }

  predicate NamesBarFree(rows: seq<Row>) {
    forall i :: 0 <= i < |rows| ==> '|' !in rows[i].org && '|' !in rows[i].event
  }

  predicate SameRow(r: Row, s: Row) {
    SameContent(r, s) && r.hash == s.hash && r.sig == s.sig
  }

  predicate SameHistory(a: seq<Row>, b: seq<Row>) {
    |a| == |b| && forall i :: 0 <= i < |a| ==> SameRow(a[i], b[i])
  }

  lemma PrevIsBarFree(env: Env, rows: seq<Row>, i: nat)
    requires HexDigests(env) && Clean(env, rows) && i < |rows|
    ensures '|' !in rows[i].prev
  {
    assert LinkedAt(env, rows, i);
    if i > 0 {
      assert LinkedAt(env, rows, i - 1);
    }
  }

  lemma HeadIsEmptyIff(env: Env, rows: seq<Row>, n: nat)
    requires HexDigests(env) && Clean(env, rows) && n <= |rows|
    ensures HashBefore(rows, n) == "" <==> n == 0
  {
    if n > 0 {
      assert LinkedAt(env, rows, n - 1);
    }
  }

  /** Rows of equal hash that do not collide are the same, and so are the hashes before them. */
  lemma RowsAgree(env: Env, a: seq<Row>, b: seq<Row>, i: nat, j: nat)
    requires HexDigests(env) && Clean(env, a) && Clean(env, b) && i < |a| && j < |b|
    requires NamesBarFree(a) && NamesBarFree(b)
    requires a[i].hash == b[j].hash && !Collides(env, a[i], b[j])
    ensures SameRow(a[i], b[j]) && HashBefore(a, i) == HashBefore(b, j)
  {
    assert LinkedAt(env, a, i) && LinkedAt(env, b, j);
    PrevIsBarFree(env, a, i);
    PrevIsBarFree(env, b, j);
    RawTextInjective(a[i], b[j]);
  }

  lemma {:induction false} HistoryUpTo(env: Env, a: seq<Row>, b: seq<Row>, m: nat, n: nat)
    requires HexDigests(env) && Clean(env, a) && Clean(env, b)
    requires NamesBarFree(a) && NamesBarFree(b) && !Collision(env, a, b)
    requires m <= |a| && n <= |b| && HashBefore(a, m) == HashBefore(b, n)
    ensures m == n && forall i :: 0 <= i < m ==> SameRow(a[i], b[i])
    decreases m
  {
    HeadIsEmptyIff(env, a, m);
    HeadIsEmptyIff(env, b, n);
    if m > 0 {
      assert !Collides(env, a[m - 1], b[n - 1]);
      RowsAgree(env, a, b, m - 1, n - 1);
      HistoryUpTo(env, a, b, m - 1, n - 1);
    }
  }

  /**
   The head of a clean chain commits to its whole history: two clean chains that end in the same
   entry hash have the same rows, unless two of the texts they hash collide under SHA-256.
   */
  lemma HeadCommitsToHistory(env: Env, a: seq<Row>, b: seq<Row>)
    requires HexDigests(env)
    requires Clean(env, a) && Clean(env, b) && NamesBarFree(a) && NamesBarFree(b)
    requires HashBefore(a, |a|) == HashBefore(b, |b|)
    ensures Collision(env, a, b) || SameHistory(a, b)
  {
    if !Collision(env, a, b) {
      HistoryUpTo(env, a, b, |a|, |b|);
    }
  }
}

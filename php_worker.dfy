/** The audit worker: picks up to five pending synthetic audits, oldest
    first, marks each one as processing, runs it through the PageSpeed
    Insights API (or a plain HTTP timing fallback), and stores the results
    or marks the audit as failed. */
module PhpWorker {
  import opened Text
  import opened Php

  // ---------------------------------------------------------------------
  // Batch selection

  /** How many pending audits one run processes. */
  const BatchSize: nat := 5

  /** A row of the synthetic audits table, as far as the worker reads it. */
  datatype AuditRow = AuditRow(id: int, url: string, status: string, createdAt: int)

  predicate IsPending(row: AuditRow) { row.status == "pending" }

  /** The pending rows, in table order. */
  function PendingRows(table: seq<AuditRow>): seq<AuditRow>
    decreases |table|
  {
    if table == [] then []
    else
      var last := table[|table| - 1];
      PendingRows(table[..|table| - 1]) + (if IsPending(last) then [last] else [])
  }

  predicate SortedByCreation(rows: seq<AuditRow>) {
    forall i, j | 0 <= i < j < |rows| :: rows[i].createdAt <= rows[j].createdAt
  }

  /** Insert `row` after every row created no later than it. */
  function Insert(row: AuditRow, rows: seq<AuditRow>): seq<AuditRow>
    decreases |rows|
  {
    if rows == [] then [row]
    else if row.createdAt < rows[0].createdAt then [row] + rows
    else [rows[0]] + Insert(row, rows[1..])
  }

  /** `ORDER BY created_at ASC`, rows created at the same time kept in table order. */
  function SortByCreation(rows: seq<AuditRow>): seq<AuditRow>
    decreases |rows|
  {
    if rows == [] then []
    else Insert(rows[|rows| - 1], SortByCreation(rows[..|rows| - 1]))
  }

  /** The batch: `SELECT * ... WHERE status = 'pending' ORDER BY created_at ASC LIMIT 5`. */
  function PendingBatch(table: seq<AuditRow>): seq<AuditRow> {
    var sorted := SortByCreation(PendingRows(table));
    if |sorted| <= BatchSize then sorted else sorted[..BatchSize]
  }

  lemma {:induction false} InsertPermutes(row: AuditRow, rows: seq<AuditRow>)
    ensures multiset(Insert(row, rows)) == multiset(rows) + multiset{row}
    decreases |rows|
  {
    if rows != [] && row.createdAt >= rows[0].createdAt {
      InsertPermutes(row, rows[1..]);
      assert rows == [rows[0]] + rows[1..];
    }
  }

  /** Every row of `rows` and `row` itself are created no earlier than `first`. */
  lemma InsertAfter(first: AuditRow, row: AuditRow, rows: seq<AuditRow>)
    requires first.createdAt <= row.createdAt
    requires forall m | 0 <= m < |rows| :: first.createdAt <= rows[m].createdAt
    ensures forall j | 0 <= j < |Insert(row, rows)| :: first.createdAt <= Insert(row, rows)[j].createdAt
  {
    var out := Insert(row, rows);
    InsertPermutes(row, rows);
    forall j | 0 <= j < |out| ensures first.createdAt <= out[j].createdAt {
      assert out[j] in multiset(out);
      if out[j] != row {
        assert out[j] in multiset(rows);
        var m :| 0 <= m < |rows| && rows[m] == out[j];
      }
    }
  }

  lemma {:induction false} InsertSorted(row: AuditRow, rows: seq<AuditRow>)
    requires SortedByCreation(rows)
    ensures SortedByCreation(Insert(row, rows))
    decreases |rows|
  {
    if rows == [] {
    } else if row.createdAt < rows[0].createdAt {
      var out := [row] + rows;
      forall i, j | 0 <= i < j < |out| ensures out[i].createdAt <= out[j].createdAt {
        if i > 0 {
          assert out[i] == rows[i - 1] && out[j] == rows[j - 1];
        } else {
          assert out[j] == rows[j - 1];
        }
      }
    } else {
      var tail := rows[1..];
      var rest := Insert(row, tail);
      InsertSorted(row, tail);
      InsertAfter(rows[0], row, tail);
      var out := [rows[0]] + rest;
      assert Insert(row, rows) == out;
      forall i, j | 0 <= i < j < |out| ensures out[i].createdAt <= out[j].createdAt {
        assert out[j] == rest[j - 1];
        if i > 0 {
          assert out[i] == rest[i - 1];
        }
      }
    }
  }

  lemma {:induction false} SortByCreationSorts(rows: seq<AuditRow>)
    ensures SortedByCreation(SortByCreation(rows))
    ensures multiset(SortByCreation(rows)) == multiset(rows)
    decreases |rows|
  {
    if rows != [] {
      var init := rows[..|rows| - 1];
      SortByCreationSorts(init);
      InsertSorted(rows[|rows| - 1], SortByCreation(init));
      InsertPermutes(rows[|rows| - 1], SortByCreation(init));
      assert rows == init + [rows[|rows| - 1]];
    }
  }

  lemma {:induction false} PendingRowsExact(table: seq<AuditRow>)
    ensures forall r | r in PendingRows(table) :: r in table && IsPending(r)
    ensures forall r | r in table && IsPending(r) :: r in PendingRows(table)
    decreases |table|
  {
    if table != [] {
      var init := table[..|table| - 1];
      PendingRowsExact(init);
      assert table == init + [table[|table| - 1]];
    }
  }

  /** The batch is a prefix of the sorted pending rows. */
  lemma BatchIsPrefix(table: seq<AuditRow>)
    ensures SortByCreation(PendingRows(table)) == PendingBatch(table) + SortByCreation(PendingRows(table))[|PendingBatch(table)|..]
    ensures |SortByCreation(PendingRows(table))| == |PendingRows(table)|
    ensures SortedByCreation(SortByCreation(PendingRows(table)))
    ensures multiset(SortByCreation(PendingRows(table))) == multiset(PendingRows(table))
  {
    var pending := PendingRows(table);
    SortByCreationSorts(pending);
    assert |SortByCreation(pending)| == |multiset(SortByCreation(pending))| == |multiset(pending)| == |pending|;
  }

  /** A batch holds at most five rows, all pending rows of the table, in
      ascending creation time, none taken twice; it is full unless fewer
      rows are pending. */
  lemma PendingBatchChoice(table: seq<AuditRow>)
    ensures |PendingBatch(table)| == (if |PendingRows(table)| <= BatchSize then |PendingRows(table)| else BatchSize)
    ensures forall r | r in PendingBatch(table) :: r in table && IsPending(r)
    ensures SortedByCreation(PendingBatch(table))
    ensures multiset(PendingBatch(table)) <= multiset(PendingRows(table))
  {
    var sorted := SortByCreation(PendingRows(table));
    var batch := PendingBatch(table);
    BatchIsPrefix(table);
    PendingRowsExact(table);
    assert multiset(sorted) == multiset(batch) + multiset(sorted[|batch|..]);
    forall r | r in batch ensures r in table && IsPending(r) {
      assert r in multiset(sorted);
    }
    forall i, j | 0 <= i < j < |batch| ensures batch[i].createdAt <= batch[j].createdAt {
      assert batch[i] == sorted[i] && batch[j] == sorted[j];
    }
  }

  /** No pending row left out of the batch was created before a row taken. */
  lemma PendingBatchOldestFirst(table: seq<AuditRow>)
    ensures forall r, q | r in PendingBatch(table) && q in table && IsPending(q) && q !in PendingBatch(table) ::
      r.createdAt <= q.createdAt
  {
    var sorted := SortByCreation(PendingRows(table));
    var batch := PendingBatch(table);
    BatchIsPrefix(table);
    PendingRowsExact(table);
    forall r, q | r in batch && q in table && IsPending(q) && q !in batch
      ensures r.createdAt <= q.createdAt
    {
      assert q in multiset(PendingRows(table));
      var j :| 0 <= j < |sorted| && sorted[j] == q;
      var i :| 0 <= i < |batch| && batch[i] == r;
      assert sorted[i] == r;
      assert j >= |batch|;
    }
  }

  /** With no pending audit the batch is empty. */
  lemma NoPendingEmptyBatch(table: seq<AuditRow>)
    requires forall k | 0 <= k < |table| :: !IsPending(table[k])
    ensures PendingBatch(table) == []
  {
    PendingRowsExact(table);
    if PendingRows(table) != [] {
      assert PendingRows(table)[0] in PendingRows(table);
    }
  }

  // ---------------------------------------------------------------------
  // Audit results

  /** An uncaught throw (a PHP `TypeError`) or a value. */
  datatype Attempt<T> = Thrown | Done(value: T)

  /** What a successful audit hands to the repository. */
  datatype Record =
    | PsiRecord(psiScore: Option<real>, timings: seq<(string, Value)>, lighthouse: Value)
    | FallbackRecord(fallbackScore: real, ttfb: Value, responseTime: real, contentLength: nat)

  /** An audit's result: a record, or a `WP_Error` with its message. */
  datatype AuditOutcome = Succeeded(record: Record) | Failed(message: string)

  /** `wp_remote_get` of the PageSpeed API followed by `json_decode` of the
      body (`Null` when the body does not decode). */
  datatype PsiReply = PsiTransportError | PsiResponse(data: Value)

  /** `wp_remote_get` of the page itself, with the measured time in
      milliseconds and the `x-response-time` header (`Str("")` when absent). */
  datatype PageReply =
    | PageTransportError(message: string)
    | PageResponse(body: string, elapsedMs: real, responseTimeHeader: Value)

  datatype Network = Network(psi: string -> PsiReply, page: string -> PageReply)

  /** PageSpeed audit ids and the keys their numeric values are stored under. */
  const TimingAudits: seq<(string, string)> := [
    ("first-contentful-paint", "first_contentful_paint"),
    ("largest-contentful-paint", "largest_contentful_paint"),
    ("total-blocking-time", "total_blocking_time"),
    ("cumulative-layout-shift", "cumulative_layout_shift"),
    ("speed-index", "speed_index"),
    ("interactive", "time_to_interactive")]

  function NumericValuePath(auditId: string): seq<Key> {
    [StrKey(auditId), StrKey("numericValue")]
  }

  /** `isset($audits[id]['numericValue']) ? $audits[id]['numericValue'] : null`. */
  function TimingValue(audits: Value, auditId: string): Value {
    if IssetPath(audits, NumericValuePath(auditId)) then Dig(audits, NumericValuePath(auditId)) else Null
  }

  function Timings(audits: Value): (t: seq<(string, Value)>)
    ensures |t| == |TimingAudits|
  {
    seq(|TimingAudits|, k requires 0 <= k < |TimingAudits| =>
      (TimingAudits[k].1, TimingValue(audits, TimingAudits[k].0)))
  }

  lemma {:induction false} IssetPathNotNull(v: Value, path: seq<Key>)
    requires IssetPath(v, path)
    ensures Dig(v, path) != Null
    decreases |path|
  {
    if path != [] {
      IssetPathNotNull(Get(v, path[0]).value, path[1..]);
    }
  }

  /** Each timing is stored under its renamed key; it is null exactly when
      the audit's numeric value is missing, and otherwise copied unchanged. */
  lemma TimingsCopied(audits: Value)
    ensures forall k | 0 <= k < |TimingAudits| ::
      && Timings(audits)[k].0 == TimingAudits[k].1
      && (Timings(audits)[k].1 == Null <==> !IssetPath(audits, NumericValuePath(TimingAudits[k].0)))
      && (IssetPath(audits, NumericValuePath(TimingAudits[k].0)) ==>
            Timings(audits)[k].1 == Dig(audits, NumericValuePath(TimingAudits[k].0)))
  {
    forall k | 0 <= k < |TimingAudits| && IssetPath(audits, NumericValuePath(TimingAudits[k].0))
      ensures Timings(audits)[k].1 != Null
    {
      IssetPathNotNull(audits, NumericValuePath(TimingAudits[k].0));
    }
  }

  /** `$score * 100` under PHP 8: arrays and non-numeric strings throw, a
      leading-numeric string counts by its leading number. */
  function TimesHundred(score: Value): Attempt<real> {
    match score
    case Null => Done(0.0)
    case Bool(b) => Done(if b then 100.0 else 0.0)
    case Int(i) => Done(i as real * 100.0)
    case Float(f) => Done(f * 100.0)
    case Str(s) => if LeadingNumber(s).Some? then Done(TextToReal(s) * 100.0) else Thrown
    case Arr(_) => Thrown
  }

  const ScorePath: seq<Key> := [StrKey("performance"), StrKey("score")]

  /** `isset($categories['performance']['score']) ? round(score * 100) : null`. */
  function PerformanceScore(categories: Value): Attempt<Option<real>> {
    if !IssetPath(categories, ScorePath) then Done(None)
    else
      match TimesHundred(Dig(categories, ScorePath))
      case Thrown => Thrown
      case Done(x) => Done(Some(Round(x) as real))
  }

  /** A missing score is null; a score in [0, 1] becomes a whole number in
      [0, 100]; only an array or a non-numeric string throws. */
  lemma PerformanceScoreRange(categories: Value)
    ensures !IssetPath(categories, ScorePath) ==> PerformanceScore(categories) == Done(None)
    ensures (IssetPath(categories, ScorePath) && IsNumeric(Dig(categories, ScorePath))
             && 0.0 <= FloatVal(Dig(categories, ScorePath)) <= 1.0) ==>
        PerformanceScore(categories).Done? && PerformanceScore(categories).value.Some?
        && 0.0 <= PerformanceScore(categories).value.value <= 100.0
    ensures PerformanceScore(categories) == Thrown ==>
      Dig(categories, ScorePath).Arr? || (Dig(categories, ScorePath).Str? && !IsNumeric(Dig(categories, ScorePath)))
  {
    var score := Dig(categories, ScorePath);
    if IssetPath(categories, ScorePath) && IsNumeric(score) && 0.0 <= FloatVal(score) <= 1.0 {
      assert TimesHundred(score) == Done(FloatVal(score) * 100.0);
      RoundWithin(FloatVal(score) * 100.0, 0, 100);
    }
  }

  const LighthousePath: seq<Key> := [StrKey("lighthouseResult")]

  function Lighthouse(data: Value): Value { Dig(data, LighthousePath) }

  /** `extract_psi_metrics`: the score and the six timings read from the
      Lighthouse result, which is kept whole; only the score can throw. */
  function ExtractPsiMetrics(data: Value): (r: Attempt<Record>)
    ensures r.Done? ==>
      && r.value.PsiRecord?
      && r.value.lighthouse == Lighthouse(data)
      && r.value.timings == Timings(Dig(Lighthouse(data), [StrKey("audits")]))
    ensures r.Done? ==>
      (r.value.psiScore.None? <==> !IssetPath(Dig(Lighthouse(data), [StrKey("categories")]), ScorePath))
    ensures r == Thrown ==>
      var score := Dig(Dig(Lighthouse(data), [StrKey("categories")]), ScorePath);
      score.Arr? || (score.Str? && !IsNumeric(score))
  {
    var lighthouse := Dig(data, LighthousePath);
    var audits := Dig(lighthouse, [StrKey("audits")]);
    var categories := Dig(lighthouse, [StrKey("categories")]);
    PerformanceScoreRange(categories);
    match PerformanceScore(categories)
    case Thrown => Thrown
    case Done(score) => Done(PsiRecord(score, Timings(audits), lighthouse))
  }

  /** `max(0, min(100, 100 - elapsed / 10))`, rounded. */
  function FallbackScore(elapsedMs: real): real {
    var raw := 100.0 - elapsedMs / 10.0;
    var clamped := if raw < 0.0 then 0.0 else if raw > 100.0 then 100.0 else raw;
    Round(clamped) as real
  }

  /** The fallback score is a whole number in [0, 100] that never rises as
      the response gets slower. */
  lemma FallbackScoreRange(a: real, b: real)
    ensures 0.0 <= FallbackScore(a) <= 100.0
    ensures FallbackScore(a) == (FallbackScore(a).Floor) as real
    ensures a >= 1000.0 ==> FallbackScore(a) == 0.0
    ensures a <= 0.0 ==> FallbackScore(a) == 100.0
    ensures a <= b ==> FallbackScore(b) <= FallbackScore(a)
  {
    var ra := 100.0 - a / 10.0;
    var ca := if ra < 0.0 then 0.0 else if ra > 100.0 then 100.0 else ra;
    RoundWithin(ca, 0, 100);
    var rb := 100.0 - b / 10.0;
    var cb := if rb < 0.0 then 0.0 else if rb > 100.0 then 100.0 else rb;
    if a <= b {
      assert cb <= ca;
      assert (cb + 0.5).Floor <= (ca + 0.5).Floor;
    }
  }

  /** `run_fallback_audit`: time a plain request to the page. */
  function RunFallbackAudit(url: string, net: Network): (r: AuditOutcome)
    ensures net.page(url).PageTransportError? <==> r.Failed?
    ensures r.Failed? ==> r.message == "Failed to fetch URL: " + net.page(url).message
    ensures r.Succeeded? ==> r.record.FallbackRecord? && 0.0 <= r.record.fallbackScore <= 100.0
  {
    match net.page(url)
    case PageTransportError(message) => Failed("Failed to fetch URL: " + message)
    case PageResponse(body, elapsedMs, header) =>
      FallbackScoreRange(elapsedMs, elapsedMs);
      Succeeded(FallbackRecord(
        FallbackScore(elapsedMs),
        if !Empty(header) then header else Float(elapsedMs * 0.3),
        elapsedMs,
        |body|))
  }

  /** The PageSpeed answer is unusable: a transport error, a body that is
      falsy once decoded, or no `lighthouseResult`. */
  predicate NeedsFallback(reply: PsiReply) {
    reply.PsiTransportError? || Empty(reply.data) || !IssetPath(reply.data, LighthousePath)
  }

  /** `run_pagespeed_audit`. */
  function RunPagespeedAudit(url: string, net: Network): (r: Attempt<AuditOutcome>)
    ensures NeedsFallback(net.psi(url)) ==> r == Done(RunFallbackAudit(url, net))
    ensures !NeedsFallback(net.psi(url)) ==>
      match ExtractPsiMetrics(net.psi(url).data)
      case Thrown => r == Thrown
      case Done(record) => r == Done(Succeeded(record))
    ensures r.Done? && r.value.Succeeded? && r.value.record.PsiRecord? <==>
      !NeedsFallback(net.psi(url)) && ExtractPsiMetrics(net.psi(url).data).Done?
  {
    var reply := net.psi(url);
    if reply.PsiTransportError? then Done(RunFallbackAudit(url, net))
    else if Empty(reply.data) || !IssetPath(reply.data, LighthousePath) then Done(RunFallbackAudit(url, net))
    else
      match ExtractPsiMetrics(reply.data)
      case Thrown => Thrown
      case Done(record) => Done(Succeeded(record))
  }

  // ---------------------------------------------------------------------
  // Processing

  /** `$wpdb->update(table, ['status' => s], ['id' => id])`. */
  function SetStatus(table: seq<AuditRow>, id: int, status: string): (t: seq<AuditRow>)
    ensures |t| == |table|
  {
    seq(|table|, k requires 0 <= k < |table| => if table[k].id == id then table[k].(status := status) else table[k])
  }

  /** The audits table and the results handed to the repository, by audit id. */
  datatype WorkerState = WorkerState(table: seq<AuditRow>, stored: seq<(int, Record)>)

  /** `process_single_audit` on the state: mark processing, run the audit,
      then store the results, mark failed, or stop on an uncaught throw. */
  function SingleAudit(st: WorkerState, audit: AuditRow, net: Network): (WorkerState, bool) {
    var marked := SetStatus(st.table, audit.id, "processing");
    match RunPagespeedAudit(audit.url, net)
    case Thrown => (WorkerState(marked, st.stored), true)
    case Done(Failed(_)) => (WorkerState(SetStatus(marked, audit.id, "failed"), st.stored), false)
    case Done(Succeeded(record)) => (WorkerState(marked, st.stored + [(audit.id, record)]), false)
  }

  /** The audits in order until one throws; the flag says one did. */
  function RunBatch(st: WorkerState, audits: seq<AuditRow>, net: Network): (WorkerState, bool)
    decreases |audits|
  {
    if audits == [] then (st, false)
    else
      var before := RunBatch(st, audits[..|audits| - 1], net);
      if before.1 then before else SingleAudit(before.0, audits[|audits| - 1], net)
  }

  lemma {:induction false} RunBatchStopsAtThrow(st: WorkerState, a: seq<AuditRow>, b: seq<AuditRow>, net: Network)
    requires RunBatch(st, a, net).1
    ensures RunBatch(st, a + b, net) == RunBatch(st, a, net)
    decreases |b|
  {
    if b == [] {
      assert a + b == a;
    } else {
      assert (a + b)[..|a + b| - 1] == a + b[..|b| - 1];
      RunBatchStopsAtThrow(st, a, b[..|b| - 1], net);
    }
  }

  function Ids(audits: seq<AuditRow>): set<int> {
    set k | 0 <= k < |audits| :: audits[k].id
  }

  /** One audit changes only the rows with its id: they end up `failed` when
      the audit failed and `processing` otherwise; results are stored only
      for a successful audit. */
  lemma SingleAuditEffect(st: WorkerState, audit: AuditRow, net: Network)
    ensures var (after, thrown) := SingleAudit(st, audit, net);
      var outcome := RunPagespeedAudit(audit.url, net);
      && |after.table| == |st.table|
      && (forall k | 0 <= k < |st.table| && st.table[k].id != audit.id :: after.table[k] == st.table[k])
      && (forall k | 0 <= k < |st.table| && st.table[k].id == audit.id ::
            after.table[k] == st.table[k].(status := if outcome.Done? && outcome.value.Failed? then "failed" else "processing"))
      && (thrown <==> outcome == Thrown)
      && (after.stored != st.stored <==> outcome.Done? && outcome.value.Succeeded?)
  {
  }

  /** A batch changes only the rows of the audits it processed; if nothing
      threw, each of those rows is now `processing` or `failed`, and the
      table keeps its size. */
  lemma {:induction false} RunBatchEffect(st: WorkerState, audits: seq<AuditRow>, net: Network)
    ensures |RunBatch(st, audits, net).0.table| == |st.table|
    ensures forall k | 0 <= k < |st.table| && st.table[k].id !in Ids(audits) ::
      RunBatch(st, audits, net).0.table[k] == st.table[k]
    ensures !RunBatch(st, audits, net).1 ==>
      forall k | 0 <= k < |st.table| && st.table[k].id in Ids(audits) ::
        RunBatch(st, audits, net).0.table[k].status in {"processing", "failed"}
    decreases |audits|
  {
    if audits != [] {
      var init := audits[..|audits| - 1];
      var last := audits[|audits| - 1];
      RunBatchEffect(st, init, net);
      var before := RunBatch(st, init, net);
      assert Ids(audits) == Ids(init) + {last.id} by {
        forall x | x in Ids(audits) ensures x in Ids(init) + {last.id} {
          var k :| 0 <= k < |audits| && audits[k].id == x;
          if k < |init| {
            assert init[k] == audits[k];
          }
        }
        forall x | x in Ids(init) ensures x in Ids(audits) {
          var k :| 0 <= k < |init| && init[k].id == x;
          assert audits[k] == init[k];
        }
      }
      if !before.1 {
        SingleAuditEffect(before.0, last, net);
        forall k | 0 <= k < |st.table| && st.table[k].id !in Ids(audits)
          ensures RunBatch(st, audits, net).0.table[k] == st.table[k]
        {
          assert before.0.table[k].id == st.table[k].id;
        }
        if !RunBatch(st, audits, net).1 {
          forall k | 0 <= k < |st.table| && st.table[k].id in Ids(audits)
            ensures RunBatch(st, audits, net).0.table[k].status in {"processing", "failed"}
          {
            if st.table[k].id != last.id {
              assert st.table[k].id in Ids(init);
            }
          }
        }
      }
    }
  }

  /** The worker's view of the database. */
  class Worker {
    var table: seq<AuditRow>
    var stored: seq<(int, Record)>

    constructor(table: seq<AuditRow>)
      ensures this.table == table && stored == []
    {
      this.table := table;
      stored := [];
    }

    /** `process_single_audit`; `thrown` reports an uncaught `TypeError`. */
    method ProcessSingleAudit(audit: AuditRow, net: Network) returns (thrown: bool)
      modifies this
      ensures (WorkerState(table, stored), thrown) == SingleAudit(WorkerState(old(table), old(stored)), audit, net)
    {
      table := SetStatus(table, audit.id, "processing");
      var results := RunPagespeedAudit(audit.url, net);
      if results.Thrown? {
        return true;
      }
      match results.value {
        case Succeeded(record) =>
          stored := stored + [(audit.id, record)];
        case Failed(_) =>
          table := SetStatus(table, audit.id, "failed");
      }
      thrown := false;
    }

    /** `process_pending_audits`: the batch is read once, then processed in
        order; an uncaught throw ends the run. */
    method ProcessPendingAudits(net: Network) returns (thrown: bool)
      modifies this
      ensures (WorkerState(table, stored), thrown)
        == RunBatch(WorkerState(old(table), old(stored)), PendingBatch(old(table)), net)
    {
      var pendingAudits := PendingBatch(table);
      ghost var start := WorkerState(table, stored);
      if pendingAudits == [] {
        return false;
      }
      for i := 0 to |pendingAudits|
        invariant (WorkerState(table, stored), false) == RunBatch(start, pendingAudits[..i], net)
      {
        assert pendingAudits[..i + 1][..i] == pendingAudits[..i];
        thrown := ProcessSingleAudit(pendingAudits[i], net);
        if thrown {
          assert pendingAudits[..i + 1] + pendingAudits[i + 1..] == pendingAudits;
          RunBatchStopsAtThrow(start, pendingAudits[..i + 1], pendingAudits[i + 1..], net);
          return;
        }
      }
      assert pendingAudits[..|pendingAudits|] == pendingAudits;
      thrown := false;
    }
  }
}

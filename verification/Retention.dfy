/**
 Bounded audit retention: one database batch deletes the oldest expired unlocked rows and
 records itself, and a runner repeats batches until the backlog is gone or its limit is reached.
 */
module Retention {
  import opened Ranking
  import opened Division

  const HOUR := 3_600_000_000
  const RETENTION := 2160 * HOUR
  const LARGEST_BATCH := 1000

  /** How long an audit row is kept, in microseconds. */
  const NINETY_DAYS := 90 * 24 * 3600 * 1_000_000

  /** An audit row, as far as retention tells rows apart. */
  datatype LoggedRow = Recorded(payload: nat) | Pruned(affected: nat)

  /** The audit table, each row under its (created_at, id) index key. */
  type Log = map<Stamp, LoggedRow>

  /**
   What the world supplies to one batch: the rows other writers committed since the one before, both clocks, locks held
   by others, a new id, and whether it commits.
   */
  datatype Tick = Tick(arrived: Log, transactionTime: int, clock: int, locked: set<Stamp>, freshId: nat, commits: bool)

  /** The table a batch finds; a key already in the table cannot arrive again. */
  function WithArrivals(log: Log, t: Tick): Log {
    t.arrived + log
  }

  function Cutoff(t: Tick): int {
    t.transactionTime - RETENTION
  }

  function Expired(log: Log, cutoff: int): set<Stamp> {
    set k | k in log && k.at < cutoff
  }

  function Victims(log: Log, batch: nat, t: Tick): set<Stamp> {
    Oldest(Expired(log, Cutoff(t)) - t.locked, batch)
  }

  predicate IdTaken(log: Log, id: nat) {
    exists k :: k in log && k.id == id
  }

  /** One acknowledged batch: the table after it, the rows it deleted, and whether an expired row is left. */
  datatype Batch = Failed | Done(log: Log, deleted: nat, remaining: bool)

  /** The effect of prune_security_events, one transaction. */
  function Prune(log: Log, batch: int, t: Tick): Batch {
    if !(1 <= batch <= LARGEST_BATCH) || !t.commits then Failed
    else
      var victims := Victims(log, batch, t);
      var kept := log - victims;
      if victims == {} then Done(kept, 0, Expired(kept, Cutoff(t)) != {})
      else if IdTaken(kept, t.freshId) then Failed
      else
        var after := kept[Stamp(t.clock, t.freshId) := Pruned(|victims|)];
        Done(after, |victims|, Expired(after, Cutoff(t)) != {})
  }

  /** Every row younger than ninety days is still there, as it was. */
  predicate KeepsYoung(before: Log, after: Log, transactionTime: int) {
    forall k | k in before && k.at >= transactionTime - NINETY_DAYS :: k in after && after[k] == before[k]
  }

  datatype Response = Raised | Response(deleted: nat, remaining: bool)

  class AuditDatabase {
    var log: Log

    /** What other writers commit between two batches. */
    method Arrive(t: Tick)
      modifies this
      ensures log == WithArrivals(old(log), t)
    {
      log := t.arrived + log;
    }

    /** prune_security_events: delete, count, record, and report whether a backlog is left. */
    method PruneSecurityEvents(batch: int, t: Tick) returns (r: Response)
      modifies this
      ensures var b := Prune(old(log), batch, t);
        if b.Failed? then r == Raised && log == old(log)
        else log == b.log && r == Response(b.deleted, b.remaining)
      ensures KeepsYoung(old(log), log, t.transactionTime)
    {
      YoungRowsStay(log, batch, t);
      if batch < 1 || LARGEST_BATCH < batch {
        return Raised;
      }
      var victims := Victims(log, batch, t);
      var rows := log - victims;
      var count := |victims|;
      if count > 0 {
        if IdTaken(rows, t.freshId) {
          return Raised;
        }
        rows := rows[Stamp(t.clock, t.freshId) := Pruned(count)];
      }
      if !t.commits {
        return Raised;
      }
      log := rows;
      r := Response(count, Expired(log, Cutoff(t)) != {});
    }
  }

  datatype Status = Drained | Incomplete | DatabaseFailure

  datatype RunResult = RunResult(status: Status, deleted: nat, batches: nat)

  /** A batch that recorded itself: where its row went and the count it carries. */
  datatype Report = Report(stamp: Stamp, count: nat)

  /** How a run ends: the table, the result, the run's own rows, and how many rows arrived meanwhile. */
  datatype Outcome = Outcome(log: Log, result: RunResult, reports: seq<Report>, arrivals: nat)

  function ReportOf(t: Tick, deleted: nat): seq<Report> {
    if deleted > 0 then [Report(Stamp(t.clock, t.freshId), deleted)] else []
  }

  lemma ArrivalsGrow(log: Log, t: Tick)
    ensures |log| <= |WithArrivals(log, t)|
  {
    var more := WithArrivals(log, t);
    assert more.Keys == log.Keys + (more.Keys - log.Keys);
    assert |more.Keys| == |log.Keys| + |more.Keys - log.Keys|;
  }

  /** The rows one batch's arrivals add. */
  function Added(log: Log, t: Tick): nat {
    ArrivalsGrow(log, t);
    |WithArrivals(log, t)| - |log|
  }

  /** The whole run: one tick per permitted batch. */
  function Run(log: Log, batch: int, ticks: seq<Tick>, deleted: nat, batches: nat): Outcome
    decreases |ticks|
  {
    if ticks == [] then Outcome(log, RunResult(Incomplete, deleted, batches), [], 0)
    else
      var found, added := WithArrivals(log, ticks[0]), Added(log, ticks[0]);
      var b := Prune(found, batch, ticks[0]);
      if b.Failed? then Outcome(found, RunResult(DatabaseFailure, deleted, batches), [], added)
      else if !b.remaining || b.deleted == 0 then
        Outcome(b.log,
                RunResult(if b.remaining then Incomplete else Drained, deleted + b.deleted, batches + 1),
                ReportOf(ticks[0], b.deleted), added)
      else
        var rest := Run(b.log, batch, ticks[1..], deleted + b.deleted, batches + 1);
        rest.(reports := ReportOf(ticks[0], b.deleted) + rest.reports, arrivals := added + rest.arrivals)
  }

  /**
   What one acknowledged batch guarantees: no more than asked (so the runner's response check never
   fires), only expired unlocked rows go, and the table shrinks by the count less the row that reports it.
   */
  lemma PruneFits(log: Log, batch: int, t: Tick)
    requires Prune(log, batch, t).Done?
    ensures var b := Prune(log, batch, t);
      && b.deleted <= batch
      && |b.log| + b.deleted == |log| + |ReportOf(t, b.deleted)|
      && (forall k | k in log && k !in b.log :: k.at < t.transactionTime - NINETY_DAYS && k !in t.locked)
  {
    var victims := Victims(log, batch, t);
    OldestSize(Expired(log, Cutoff(t)) - t.locked, batch);
    OldestWithin(Expired(log, Cutoff(t)) - t.locked, batch);
    hide Oldest;
    var kept := log - victims;
    assert log.Keys == kept.Keys + victims;
    assert |log| == |kept| + |victims|;
    var s := Stamp(t.clock, t.freshId);
    if victims != {} {
      assert s !in kept;
      assert kept[s := Pruned(|victims|)].Keys == kept.Keys + {s};
    }
  }

  /** A row younger than ninety days stays as it is, whatever the batch. */
  lemma YoungRowsStay(log: Log, batch: int, t: Tick)
    ensures Prune(log, batch, t).Done? ==> KeepsYoung(log, Prune(log, batch, t).log, t.transactionTime)
  {
    if batch > 0 {
      OldestWithin(Expired(log, Cutoff(t)) - t.locked, batch);
    }
    hide Oldest;
  }

  /** A row of ninety days or more that nobody holds goes, unless a full batch of rows older still went instead. */
  lemma OldRowsGo(log: Log, batch: nat, t: Tick, k: Stamp)
    requires 1 <= batch <= 1000 && t.commits && forall j | j in log :: j.id != t.freshId
    requires k in log && k.at < t.transactionTime - NINETY_DAYS && k !in t.locked
    ensures Prune(log, batch, t).Done?
    ensures k !in Prune(log, batch, t).log
      || exists gone: set<Stamp> ::
           |gone| == batch == Prune(log, batch, t).deleted
           && forall x | x in gone :: x in log && x !in Prune(log, batch, t).log
                                      && (x.at < k.at || (x.at == k.at && x.id < k.id))
  {
    var due := Expired(log, Cutoff(t)) - t.locked;
    var victims := Victims(log, batch, t);
    OldestWithin(due, batch);
    OldestSize(due, batch);
    if k !in victims {
      forall x | x in victims
        ensures Before(x, k)
      {
        OldestPrecede(due, batch, x, k);
      }
      hide Oldest;
      assert k in due - victims;
      assert |due - victims| == |due| - |victims|;
      assert forall x | x in victims :: x in log && x !in Prune(log, batch, t).log;
    }
  }

  /** A batch fails on a size out of range, a lost transaction, or a used id for its report. */
  lemma BatchFailsIff(log: Log, batch: int, t: Tick)
    ensures Prune(log, batch, t).Failed? <==>
      || batch < 1 || batch > 1000 || !t.commits
      || ((exists k :: k in log && k.at < t.transactionTime - NINETY_DAYS && k !in t.locked)
          && exists j :: j in log - Victims(log, batch, t) && j.id == t.freshId)
  {
    var due := Expired(log, Cutoff(t)) - t.locked;
    if 1 <= batch {
      OldestWithin(due, batch);
      OldestSize(due, batch);
      hide Oldest;
      if k :| k in log && k.at < t.transactionTime - NINETY_DAYS && k !in t.locked {
        assert k in due;
        assert |due| > 0;
      }
    }
  }

  lemma NothingExpired(log: Log, t: Tick)
    ensures Expired(log, Cutoff(t)) == {} <==> forall k | k in log :: k.at >= t.transactionTime - NINETY_DAYS
  {
    if k :| k in log && k.at < t.transactionTime - NINETY_DAYS {
      assert k in Expired(log, Cutoff(t));
    }
  }

  /** A batch says whether it leaves a row of ninety days or more, locked or not. */
  lemma PruneTells(log: Log, batch: int, t: Tick)
    requires Prune(log, batch, t).Done?
    ensures !Prune(log, batch, t).remaining <==>
      forall k | k in Prune(log, batch, t).log :: k.at >= t.transactionTime - NINETY_DAYS
  {
    NothingExpired(Prune(log, batch, t).log, t);
    hide Victims, Expired, Cutoff;
  }

  lemma NoMoreThanAsked(log: Log, batch: int, t: Tick)
    requires Prune(log, batch, t).Done?
    ensures Prune(log, batch, t).deleted <= batch
    ensures |Prune(log, batch, t).log| + Prune(log, batch, t).deleted == |log|
      + |ReportOf(t, Prune(log, batch, t).deleted)|
  {
    hide Prune;
    PruneFits(log, batch, t);
  }

  /** A run goes on after a batch that deleted something and left something. */
  lemma RunGoesOn(log: Log, batch: int, ticks: seq<Tick>, deleted: nat, batches: nat)
    requires ticks != [] && Prune(WithArrivals(log, ticks[0]), batch, ticks[0]).Done?
    requires var b := Prune(WithArrivals(log, ticks[0]), batch, ticks[0]); b.remaining && b.deleted > 0
    ensures var b := Prune(WithArrivals(log, ticks[0]), batch, ticks[0]);
      var out := Run(log, batch, ticks, deleted, batches);
      var rest := Run(b.log, batch, ticks[1..], deleted + b.deleted, batches + 1);
      out.log == rest.log && out.result == rest.result
  {
    hide Prune, ReportOf;
  }

  /** _run_batches, with max_batches the number of ticks. */
  method RunBatches(db: AuditDatabase, batch: int, ticks: seq<Tick>) returns (r: RunResult)
    modifies db
    ensures db.log == Run(old(db.log), batch, ticks, 0, 0).log
    ensures r == Run(old(db.log), batch, ticks, 0, 0).result
  {
    hide Prune, ReportOf, Added, WithArrivals, KeepsYoung;
    var deletedCount: nat, batches: nat := 0, 0;
    ghost var goal := Run(db.log, batch, ticks, 0, 0);
    for i := 0 to |ticks|
      invariant Run(db.log, batch, ticks[i..], deletedCount, batches).log == goal.log
      invariant Run(db.log, batch, ticks[i..], deletedCount, batches).result == goal.result
    {
      assert ticks[i..][1..] == ticks[i + 1..];
      ghost var was := db.log;
      db.Arrive(ticks[i]);
      ghost var found := db.log;
      var response := db.PruneSecurityEvents(batch, ticks[i]);
      if response.Raised? {
        return RunResult(DatabaseFailure, deletedCount, batches);
      }
      NoMoreThanAsked(found, batch, ticks[i]);
      if response.deleted > batch {
        return RunResult(DatabaseFailure, deletedCount, batches);
      }
      if response.remaining && response.deleted > 0 {
        RunGoesOn(was, batch, ticks[i..], deletedCount, batches);
      }
      deletedCount := deletedCount + response.deleted;
      batches := batches + 1;
      if !response.remaining {
        return RunResult(Drained, deletedCount, batches);
      }
      if response.deleted == 0 {
        return RunResult(Incomplete, deletedCount, batches);
      }
    }
    return RunResult(Incomplete, deletedCount, batches);
  }

  function Sum(reports: seq<Report>): nat {
    if reports == [] then 0 else reports[0].count + Sum(reports[1..])
  }

  lemma ReportSums(t: Tick, deleted: nat, rest: seq<Report>)
    ensures Sum(ReportOf(t, deleted) + rest) == deleted + Sum(rest)
    ensures |ReportOf(t, deleted)| == if deleted > 0 then 1 else 0
  {
    assert deleted > 0 ==> (ReportOf(t, deleted) + rest)[1..] == rest;
    assert deleted == 0 ==> ReportOf(t, deleted) + rest == rest;
  }

  lemma NoReports()
    ensures Sum([]) == 0
  {
  }

  // ---- every run, whatever the clocks, locks and failures ------------------------------------

  /**
   Conservation: the acknowledged total is what the run's own rows say, and the table changes by exactly the rows that
   arrived and the run's own, less that total; a failed batch never advances the totals.
   */
  lemma {:induction false} RunConserves(log: Log, batch: int, ticks: seq<Tick>, deleted: nat, batches: nat)
    ensures var out := Run(log, batch, ticks, deleted, batches);
      && out.result.deleted == deleted + Sum(out.reports)
      && |out.log| + Sum(out.reports) == |log| + out.arrivals + |out.reports|
      && batches + |out.reports| <= out.result.batches <= batches + |ticks|
    decreases |ticks|
  {
    hide Prune, ReportOf, Sum, WithArrivals;
    NoReports();
    if ticks != [] {
      var found := WithArrivals(log, ticks[0]);
      if Prune(found, batch, ticks[0]).Done? {
        NoMoreThanAsked(found, batch, ticks[0]);
        var b := Prune(found, batch, ticks[0]);
        ReportSums(ticks[0], b.deleted, []);
        assert ReportOf(ticks[0], b.deleted) + [] == ReportOf(ticks[0], b.deleted);
        if b.remaining && b.deleted > 0 {
          RunConserves(b.log, batch, ticks[1..], deleted + b.deleted, batches + 1);
          ReportSums(ticks[0], b.deleted, Run(b.log, batch, ticks[1..], deleted + b.deleted, batches + 1).reports);
        }
      }
    }
  }

  /** A row that is younger than ninety days at every batch of a run is there, unchanged, when the run ends. */
  lemma {:induction false} YoungRowsSurvive(
    log: Log, batch: int, ticks: seq<Tick>, deleted: nat, batches: nat, k: Stamp)
    requires k in log && forall i | 0 <= i < |ticks| :: k.at >= ticks[i].transactionTime - NINETY_DAYS
    ensures var out := Run(log, batch, ticks, deleted, batches); k in out.log && out.log[k] == log[k]
    decreases |ticks|
  {
    hide Prune, ReportOf, Added;
    if ticks != [] {
      var found := WithArrivals(log, ticks[0]);
      YoungRowsStay(found, batch, ticks[0]);
      var b := Prune(found, batch, ticks[0]);
      if b.Done? && b.remaining && b.deleted > 0 {
        YoungRowsSurvive(b.log, batch, ticks[1..], deleted + b.deleted, batches + 1, k);
      }
    }
  }

  /** Drained is never reported while a row expired at the final batch's cutoff, locked or not, is still there. */
  lemma {:induction false} DrainedMeansEmpty(log: Log, batch: int, ticks: seq<Tick>, deleted: nat, batches: nat)
    returns (final: nat)
    requires Run(log, batch, ticks, deleted, batches).result.status == Drained
    ensures final < |ticks| && Run(log, batch, ticks, deleted, batches).result.batches == batches + final + 1
    ensures forall k | k in Run(log, batch, ticks, deleted, batches).log ::
      k.at >= ticks[final].transactionTime - NINETY_DAYS
    decreases |ticks|
  {
    hide Prune, Expired, ReportOf, Cutoff, Added, WithArrivals;
    var found := WithArrivals(log, ticks[0]);
    PruneTells(found, batch, ticks[0]);
    var b := Prune(found, batch, ticks[0]);
    if !b.remaining {
      final := 0;
    } else {
      var later := DrainedMeansEmpty(b.log, batch, ticks[1..], deleted + b.deleted, batches + 1);
      final := later + 1;
    }
  }

  // ---- a quiet run: nothing arriving, nothing locked, nothing newly expired, nothing failing ---------------------

  /** Every tick sees the same expired rows, commits, and records itself outside every cutoff under an unused id. */
  ghost predicate Quiet(log: Log, ticks: seq<Tick>, expired: set<Stamp>) {
    && (forall i | 0 <= i < |ticks| :: ticks[i].commits && ticks[i].locked == {} && ticks[i].arrived == map[])
    && (forall i | 0 <= i < |ticks| :: (set k | k in log && k.at < ticks[i].transactionTime - NINETY_DAYS) == expired)
    && (forall i | 0 <= i < |ticks| :: !IdTaken(log, ticks[i].freshId))
    && (forall i, j | 0 <= i < |ticks| && 0 <= j < |ticks| ::
          ticks[j].transactionTime - NINETY_DAYS <= ticks[i].clock)
    && (forall i, j | 0 <= i < j < |ticks| :: ticks[i].freshId != ticks[j].freshId)
  }

  lemma NothingArrives(log: Log, ticks: seq<Tick>, expired: set<Stamp>)
    requires Quiet(log, ticks, expired) && ticks != []
    ensures WithArrivals(log, ticks[0]) == log
  {
  }

  lemma QuietVictims(log: Log, batch: nat, ticks: seq<Tick>, expired: set<Stamp>)
    requires Quiet(log, ticks, expired) && ticks != []
    ensures Victims(log, batch, ticks[0]) == Oldest(expired, batch) && expired <= log.Keys
  {
    assert Expired(log, Cutoff(ticks[0])) - ticks[0].locked == expired;
  }

  /** What one quiet batch leaves. */
  lemma QuietLeaves(log: Log, batch: nat, ticks: seq<Tick>, expired: set<Stamp>)
    requires Quiet(log, ticks, expired) && ticks != [] && 1 <= batch <= LARGEST_BATCH
    ensures var b := Prune(log, batch, ticks[0]); var o := Oldest(expired, batch);
      b.Done? && b.deleted == |o| && b.log == (log - o) + ReportRow(ticks[0], |o|)
  {
    QuietVictims(log, batch, ticks, expired);
    OldestWithin(expired, batch);
    hide Oldest, Victims, Expired;
  }

  lemma QuietRest(log: Log, ticks: seq<Tick>, expired: set<Stamp>, o: set<Stamp>)
    requires Quiet(log, ticks, expired) && ticks != [] && o <= expired
    ensures Quiet((log - o) + ReportRow(ticks[0], |o|), ticks[1..], expired - o)
    ensures forall i | 0 <= i < |ticks| ::
      (set k | k in (log - o) + ReportRow(ticks[0], |o|) && k.at < ticks[i].transactionTime - NINETY_DAYS)
      == expired - o
  {
    var left := (log - o) + ReportRow(ticks[0], |o|);
    forall i | 0 <= i < |ticks|
      ensures (set k | k in left && k.at < ticks[i].transactionTime - NINETY_DAYS) == expired - o
    {
      assert (set k | k in log && k.at < ticks[i].transactionTime - NINETY_DAYS) == expired;
    }
    forall i | 0 < i < |ticks|
      ensures !IdTaken(left, ticks[i].freshId)
    {
      assert forall k | k in left :: k in log || k.id == ticks[0].freshId;
    }
  }

  /** One quiet batch takes exactly the oldest rows and leaves the later ticks a quiet, smaller backlog. */
  lemma QuietStep(log: Log, batch: nat, ticks: seq<Tick>, expired: set<Stamp>)
    requires Quiet(log, ticks, expired) && ticks != [] && 1 <= batch <= LARGEST_BATCH
    ensures var b := Prune(log, batch, ticks[0]); var o := Oldest(expired, batch);
      && b.Done? && b.deleted == |o| && (b.remaining <==> expired - o != {})
      && b.log == (log - o) + ReportRow(ticks[0], |o|)
      && Quiet(b.log, ticks[1..], expired - o)
  {
    OldestWithin(expired, batch);
    QuietLeaves(log, batch, ticks, expired);
    QuietRest(log, ticks, expired, Oldest(expired, batch));
    PruneTells(log, batch, ticks[0]);
    hide Oldest, Prune, Quiet, ReportRow;
    var b := Prune(log, batch, ticks[0]);
    var backlog := set k | k in b.log && k.at < ticks[0].transactionTime - NINETY_DAYS;
    assert backlog == expired - Oldest(expired, batch);
    assert backlog == {} <==> forall k | k in b.log :: k.at >= ticks[0].transactionTime - NINETY_DAYS by {
      if k :| k in b.log && k.at < ticks[0].transactionTime - NINETY_DAYS {
        assert k in backlog;
      }
    }
  }

  function ReportRow(t: Tick, deleted: nat): Log {
    if deleted > 0 then map[Stamp(t.clock, t.freshId) := Pruned(deleted)] else map[]
  }

  /** The rows a run's reports stand for. */
  function ReportRows(reports: seq<Report>): Log {
    if reports == [] then map[]
    else map[reports[0].stamp := Pruned(reports[0].count)] + ReportRows(reports[1..])
  }

  /**
   Totals of a quiet run: with E expired rows, batch b and m ticks, E <= b*m drains E rows in
   max(1, ceil(E/b)) batches; anything more stops incomplete after m full batches.
   */
  lemma {:induction false} QuietTotals(log: Log, batch: nat, ticks: seq<Tick>, expired: set<Stamp>, deleted: nat,
      batches: nat)
    requires Quiet(log, ticks, expired) && 1 <= batch <= LARGEST_BATCH
    ensures var n := |expired|; var total := Product(batch, |ticks|);
      Run(log, batch, ticks, deleted, batches).result ==
        if ticks != [] && n <= total
        then RunResult(Drained, deleted + n, batches + Max(1, CeilDiv(n, batch)))
        else RunResult(Incomplete, deleted + total, batches + |ticks|)
    decreases |ticks|
  {
    hide WithArrivals, Added, Prune, Oldest, Quiet, ReportOf, ReportRow, Product, CeilDiv;
    if ticks != [] {
      NothingArrives(log, ticks, expired);
      QuietStep(log, batch, ticks, expired);
      OldestSize(expired, batch);
      OldestWithin(expired, batch);
      CeilDivSteps(|expired|, batch);
      var b := Prune(log, batch, ticks[0]);
      var o := Oldest(expired, batch);
      var left := expired - o;
      assert |left| == |expired| - |o|;
      ProductSteps(batch, |ticks|);
      if left != {} {
        assert |left| > 0;
        QuietTotals(b.log, batch, ticks[1..], left, deleted + batch, batches + 1);
        CeilDivSteps(|left|, batch);
      }
    } else {
      ProductSteps(batch, 0);
    }
  }

  lemma ReportsLate(log: Log, ticks: seq<Tick>, expired: set<Stamp>)
    requires Quiet(log, ticks, expired) && ticks != []
    ensures Stamp(ticks[0].clock, ticks[0].freshId) !in expired
  {
    assert Expired(log, Cutoff(ticks[0])) == expired;
  }

  lemma NothingGone(log: Log)
    ensures (log - {}) + ReportRows([]) == log
  {
  }

  lemma SurvivorsLast(log: Log, o: set<Stamp>, t: Tick, n: nat)
    ensures (log - o) + ReportRow(t, n) == (log - o) + ReportRows(ReportOf(t, n))
  {
  }

  /** Deleting in two rounds with a report between them is deleting both rounds' rows and reporting both. */
  lemma SurvivorsMeet(log: Log, o: set<Stamp>, o2: set<Stamp>, t: Tick, n: nat, rest: seq<Report>)
    requires Stamp(t.clock, t.freshId) !in o2
    ensures (((log - o) + ReportRow(t, n)) - o2) + ReportRows(rest)
         == (log - (o + o2)) + ReportRows(ReportOf(t, n) + rest)
  {
    if n > 0 {
      assert (ReportOf(t, n) + rest)[1..] == rest;
    } else {
      assert ReportOf(t, n) + rest == rest;
    }
  }

  /** Survivors of a quiet run: every row but the b*m oldest expired ones, unchanged, plus the run's own reports. */
  lemma {:induction false} QuietSurvivors(log: Log, batch: nat, ticks: seq<Tick>, expired: set<Stamp>, deleted: nat,
      batches: nat)
    requires Quiet(log, ticks, expired) && 1 <= batch <= LARGEST_BATCH
    ensures var out := Run(log, batch, ticks, deleted, batches);
      out.log == (log - Oldest(expired, Product(batch, |ticks|))) + ReportRows(out.reports)
    decreases |ticks|
  {
    hide WithArrivals, Added, Prune, Oldest, Quiet, ReportOf, ReportRow, Product, ReportRows;
    ProductSteps(batch, |ticks|);
    ProductSteps(batch, 0);
    if ticks == [] {
      OldestNone(expired, 0);
      NothingGone(log);
    } else {
      NothingArrives(log, ticks, expired);
      QuietStep(log, batch, ticks, expired);
      ReportsLate(log, ticks, expired);
      var b, o, m := Prune(log, batch, ticks[0]), Oldest(expired, batch), Product(batch, |ticks| - 1);
      var left := expired - o;
      OldestSize(expired, batch);
      OldestWithin(expired, batch);
      OldestCompose(expired, batch, m);
      OldestWithin(left, m);
      if left == {} {
        assert o + Oldest(left, m) == o;
        SurvivorsLast(log, o, ticks[0], |o|);
      } else {
        LeftOver(expired, o, batch);
        QuietSurvivors(b.log, batch, ticks[1..], left, deleted + batch, batches + 1);
        SurvivorsMeet(log, o, Oldest(left, m), ticks[0], |o|,
          Run(b.log, batch, ticks[1..], deleted + batch, batches + 1).reports);
      }
    }
  }

  lemma LeftOver(expired: set<Stamp>, o: set<Stamp>, batch: nat)
    requires o <= expired && |o| == Min(batch, |expired|) && expired - o != {}
    ensures |o| == batch
  {
    assert |expired - o| == |expired| - |o|;
    assert |expired - o| > 0;
  }

  /** A quiet run leaves one report for each nonempty batch, ceil(deleted / b) of them. */
  lemma {:induction false} QuietReports(log: Log, batch: nat, ticks: seq<Tick>, expired: set<Stamp>, deleted: nat,
      batches: nat)
    requires Quiet(log, ticks, expired) && 1 <= batch <= LARGEST_BATCH
    ensures |Run(log, batch, ticks, deleted, batches).reports| ==
      CeilDiv(Min(|expired|, Product(batch, |ticks|)), batch)
    decreases |ticks|
  {
    hide WithArrivals, Added, Prune, Oldest, Quiet, ReportOf, ReportRow, Product, CeilDiv;
    ProductSteps(batch, |ticks|);
    ProductSteps(batch, 0);
    CeilDivSteps(Min(|expired|, Product(batch, |ticks|)), batch);
    CeilDivSteps(0, batch);
    if ticks != [] {
      NothingArrives(log, ticks, expired);
      QuietStep(log, batch, ticks, expired);
      OldestSize(expired, batch);
      OldestWithin(expired, batch);
      var b, o := Prune(log, batch, ticks[0]), Oldest(expired, batch);
      var left := expired - o;
      assert |left| == |expired| - |o|;
      ReportSums(ticks[0], |o|, []);
      if left != {} {
        LeftOver(expired, o, batch);
        QuietReports(b.log, batch, ticks[1..], left, deleted + batch, batches + 1);
      }
    }
  }

  function Max(a: nat, b: nat): nat {
    if a < b then b else a
  }
}

/** Integer division facts the batch counts and throttle windows need. */
module Division {

  function CeilDiv(n: nat, b: nat): nat
    requires b > 0
  {
    (n + b - 1) / b
  }

  lemma AtLeastOne(b: int, d: int)
    requires b > 0 && d > 0
    ensures b * d >= b
  {
  }

  function Product(b: nat, m: nat): nat {
    b * m
  }

  lemma ProductSteps(b: nat, m: nat)
    ensures Product(b, 0) == 0
    ensures m > 0 ==> Product(b, m) == b + Product(b, m - 1)
  {
  }

  /** Quotient and remainder are unique. */
  lemma DivUnique(x: int, b: int, q: int, r: int)
    requires b > 0 && 0 <= r < b && x == b * q + r
    ensures x / b == q
  {
    var p := x / b;
    assert x == b * p + x % b;
    if p < q {
      AtLeastOne(b, q - p);
      assert false;
    } else if q < p {
      AtLeastOne(b, p - q);
      assert false;
    }
  }

  lemma CeilDivSteps(n: nat, b: nat)
    requires b > 0
    ensures n == 0 ==> CeilDiv(n, b) == 0
    ensures 0 < n <= b ==> CeilDiv(n, b) == 1
    ensures b < n ==> CeilDiv(n, b) == 1 + CeilDiv(n - b, b)
  {
    if n == 0 {
      DivUnique(b - 1, b, 0, b - 1);
    } else if n <= b {
      DivUnique(n + b - 1, b, 1, n - 1);
    } else {
      var q, r := (n - 1) / b, (n - 1) % b;
      assert n - 1 == b * q + r;
      assert b * (q + 1) == b * q + b;
      DivUnique(n + b - 1, b, q + 1, r);
    }
  }
}

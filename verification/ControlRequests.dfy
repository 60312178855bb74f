/** The table of control requests: each is answered, cancelled, timed out or aborted, once. */
module ControlRequests {
  import opened Prelude
  import opened TextOrder

  /** Points in time, in ticks. */
  type Instant = int

  datatype Request = Request(requestId: string, runId: string, subtype: string, payload: string,
                             expiresAt: Option<Instant>)

  datatype Response = Response(requestId: string, decisionSource: string, payload: string)

  datatype Status = Pending | Resolved | Cancelled | TimedOut | Aborted

  datatype Record = Record(
    request: Request,
    createdAt: Instant,
    status: Status,
    resolvedAt: Option<Instant>,
    response: Option<Response>,
    terminalReason: Option<string>)

  datatype ResolveOutcome =
    | Applied(requestId: string, subtype: string)
    | DuplicateIgnored(requestId: string, existing: Status)
    | ResolvedTooLate(requestId: string)
    | UnknownRequest(requestId: string)

  datatype InsertError = DuplicateRequestId(requestId: string)

  type Table = map<string, Record>

  predicate IsExpired(expiresAt: Option<Instant>, now: Instant) {
    expiresAt.Some? && now >= expiresAt.value
  }

  function Settle(record: Record, status: Status, now: Instant, reason: string): Record {
    record.(status := status, resolvedAt := Some(now), terminalReason := Some(reason))
  }

  // ---------------------------------------------------------------- each operation on the table

  function InsertResult(table: Table, request: Request): Result<(), InsertError> {
    if request.requestId in table then Err(DuplicateRequestId(request.requestId)) else Ok(())
  }

  function Inserted(table: Table, request: Request, createdAt: Instant): Table {
    if request.requestId in table then table
    else table[request.requestId := Record(request, createdAt, Pending, None, None, None)]
  }

  function ResolveResult(table: Table, response: Response, now: Instant): ResolveOutcome {
    var id := response.requestId;
    if id !in table then UnknownRequest(id)
    else if table[id].status != Pending then DuplicateIgnored(id, table[id].status)
    else if IsExpired(table[id].request.expiresAt, now) then ResolvedTooLate(id)
    else Applied(id, table[id].request.subtype)
  }

  function ResolvedTable(table: Table, response: Response, now: Instant): Table {
    var id := response.requestId;
    match ResolveResult(table, response, now)
    case Applied(_, _) => table[id := table[id].(status := Resolved, resolvedAt := Some(now),
                                                 response := Some(response))]
    case ResolvedTooLate(_) => table[id := Settle(table[id], TimedOut, now, "control request expired before response")]
    case _ => table
  }

  predicate CanCancel(table: Table, id: string) {
    id in table && table[id].status == Pending
  }

  function CancelledTable(table: Table, id: string, reason: string, now: Instant): Table {
    if CanCancel(table, id) then table[id := Settle(table[id], Cancelled, now, reason)] else table
  }

  /** The two operations that go over the whole table. */
  datatype Sweep = AbortSweep(reason: string) | ExpireSweep

  predicate Hits(sweep: Sweep, record: Record, now: Instant) {
    record.status == Pending && (sweep.AbortSweep? || IsExpired(record.request.expiresAt, now))
  }

  function SweptRecord(sweep: Sweep, record: Record, now: Instant): Record {
    if !Hits(sweep, record, now) then record
    else
      match sweep
      case AbortSweep(reason) => Settle(record, Aborted, now, reason)
      case ExpireSweep => Settle(record, TimedOut, now, "control request expired")
  }

  function SweptTable(table: Table, sweep: Sweep, now: Instant): Table {
    map id | id in table :: SweptRecord(sweep, table[id], now)
  }

  /** The ids of the requests hit among the first `n` of `keys`. */
  function SweptIds(table: Table, keys: seq<string>, n: nat, sweep: Sweep, now: Instant): seq<string>
    requires n <= |keys| && forall k :: k in keys ==> k in table
  {
    if n == 0 then []
    else
      var record := table[keys[n - 1]];
      SweptIds(table, keys, n - 1, sweep, now) + (if Hits(sweep, record, now) then [record.request.requestId] else [])
  }

  function SweptRequests(table: Table, sweep: Sweep, now: Instant): seq<string> {
    SweptIds(table, SortedKeys(table.Keys), |table.Keys|, sweep, now)
  }

  /** One record of the sweep: timed out when it is pending and its time has come. */
  method ExpireOne(record: Record, now: Instant) returns (hit: bool, swept: Record)
    ensures hit == Hits(ExpireSweep, record, now) && swept == SweptRecord(ExpireSweep, record, now)
  {
    hit, swept := false, record;
    if record.status == Pending && IsExpired(record.request.expiresAt, now) {
      swept := swept.(status := TimedOut);
      swept := swept.(resolvedAt := Some(now));
      swept := swept.(terminalReason := Some("control request expired"));
      hit := true;
    }
  }

  class PendingControlRequests {
    var records: Table

    constructor ()
      ensures records == map[]
    {
      records := map[];
    }

    method Insert(request: Request, createdAt: Instant) returns (result: Result<(), InsertError>)
      modifies this
      ensures records == Inserted(old(records), request, createdAt)
      ensures result == InsertResult(old(records), request)
    {
      if request.requestId in records {
        return Err(DuplicateRequestId(request.requestId));
      }
      records := records[request.requestId := Record(request, createdAt, Pending, None, None, None)];
      result := Ok(());
    }

    method Resolve(response: Response, now: Instant) returns (outcome: ResolveOutcome)
      modifies this
      ensures records == ResolvedTable(old(records), response, now)
      ensures outcome == ResolveResult(old(records), response, now)
    {
      var id := response.requestId;
      if id !in records {
        return UnknownRequest(id);
      }
      var record := records[id];
      if record.status != Pending {
        return DuplicateIgnored(id, record.status);
      }
      if IsExpired(record.request.expiresAt, now) {
        record := record.(status := TimedOut);
        record := record.(resolvedAt := Some(now));
        record := record.(terminalReason := Some("control request expired before response"));
        records := records[id := record];
        return ResolvedTooLate(id);
      }
      record := record.(status := Resolved);
      record := record.(resolvedAt := Some(now));
      record := record.(response := Some(response));
      records := records[id := record];
      outcome := Applied(id, record.request.subtype);
    }

    method Cancel(id: string, reason: string, now: Instant) returns (done: bool)
      modifies this
      ensures records == CancelledTable(old(records), id, reason, now)
      ensures done == CanCancel(old(records), id)
    {
      if id !in records {
        return false;
      }
      var record := records[id];
      if record.status != Pending {
        return false;
      }
      records := records[id := Settle(record, Cancelled, now, reason)];
      done := true;
    }

    method AbortPending(reason: string, now: Instant) returns (aborted: seq<string>)
      modifies this
      ensures records == SweptTable(old(records), AbortSweep(reason), now)
      ensures aborted == SweptRequests(old(records), AbortSweep(reason), now)
    {
      var keys := SortedKeys(records.Keys);
      DistinctKeys(keys);
      aborted := AbortEach(keys, reason, now);
    }

    /** The loop of `AbortPending` over the ordered keys. */
    method AbortEach(keys: seq<string>, reason: string, now: Instant) returns (aborted: seq<string>)
      requires Lists(keys, records)
      modifies this
      ensures records == SweptTable(old(records), AbortSweep(reason), now)
      ensures aborted == SweptIds(old(records), keys, |keys|, AbortSweep(reason), now)
    {
      ghost var before, sweep := records, AbortSweep(reason);
      aborted := [];
      var i := 0;
      while i < |keys|
        invariant 0 <= i <= |keys|
        invariant SweptUpTo(before, sweep, now, keys, i, records, aborted)
      {
        var id := keys[i];
        ghost var from := i;
        SweepStep(before, sweep, now, keys, from, from + 1, records, aborted);
        i := i + 1;
        var record := records[id];
        if record.status == Pending {
          records := records[id := Settle(record, Aborted, now, reason)];
          aborted := aborted + [record.request.requestId];
        }
      }
      SweepDone(before, sweep, now, keys, records, aborted);
    }

    method Expire(now: Instant) returns (expired: seq<string>)
      modifies this
      ensures records == SweptTable(old(records), ExpireSweep, now)
      ensures expired == SweptRequests(old(records), ExpireSweep, now)
    {
      var keys := SortedKeys(records.Keys);
      DistinctKeys(keys);
      expired := ExpireEach(keys, now);
    }

    /** The loop of `Expire` over the ordered keys. */
    method ExpireEach(keys: seq<string>, now: Instant) returns (expired: seq<string>)
      requires Lists(keys, records)
      modifies this
      ensures records == SweptTable(old(records), ExpireSweep, now)
      ensures expired == SweptIds(old(records), keys, |keys|, ExpireSweep, now)
    {
      ghost var before := records;
      expired := [];
      var i := 0;
      while i < |keys|
        invariant 0 <= i <= |keys|
        invariant SweptUpTo(before, ExpireSweep, now, keys, i, records, expired)
      {
        var id := keys[i];
        ghost var from := i;
        SweepStep(before, ExpireSweep, now, keys, from, from + 1, records, expired);
        i := i + 1;
        var hit, swept := ExpireOne(records[id], now);
        if hit {
          expired := expired + [records[id].request.requestId];
          records := records[id := swept];
        }
      }
      SweepDone(before, ExpireSweep, now, keys, records, expired);
    }
  }

  /** `keys` names each record of `table` once. */
  ghost predicate Lists(keys: seq<string>, table: Table) {
    && (forall k :: k in keys <==> k in table)
    && Distinct(keys)
  }

  lemma DistinctKeys(keys: seq<string>)
    requires Ascending(keys)
    ensures Distinct(keys)
  {
    forall i, j | 0 <= i < j < |keys| ensures keys[i] != keys[j] {
      BelowIsAsymmetric(keys[i], keys[j]);
    }
  }

  /** The records of the first `i` keys have been swept, the others are as before, and `ids` reports the hits. */
  ghost predicate SweptUpTo(before: Table, sweep: Sweep, now: Instant, keys: seq<string>, i: nat, table: Table,
                            ids: seq<string>)
  {
    && i <= |keys| && Lists(keys, before)
    && table.Keys == before.Keys
    && (forall k :: 0 <= k < |keys| ==>
          table[keys[k]] == if k < i then SweptRecord(sweep, before[keys[k]], now) else before[keys[k]])
    && ids == SweptIds(before, keys, i, sweep, now)
  }

  lemma SweepStep(before: Table, sweep: Sweep, now: Instant, keys: seq<string>, i: nat, j: nat, table: Table,
                  ids: seq<string>)
    requires SweptUpTo(before, sweep, now, keys, i, table, ids) && i < |keys| && j == i + 1
    ensures keys[i] in table && table[keys[i]] == before[keys[i]]
    ensures var id, hit := keys[i], Hits(sweep, before[keys[i]], now);
            SweptUpTo(before, sweep, now, keys, j,
                      if hit then table[id := SweptRecord(sweep, before[id], now)] else table,
                      if hit then ids + [before[id].request.requestId] else ids)
  {
    var id, hit := keys[i], Hits(sweep, before[keys[i]], now);
    assert id in keys;
    var table' := if hit then table[id := SweptRecord(sweep, before[id], now)] else table;
    forall k | 0 <= k < |keys|
      ensures table'[keys[k]] == if k < j then SweptRecord(sweep, before[keys[k]], now) else before[keys[k]]
    {
      assert keys[k] in keys;
      assert k != i ==> keys[k] != id;
    }
    assert table'.Keys == before.Keys;
  }

  lemma SweepDone(before: Table, sweep: Sweep, now: Instant, keys: seq<string>, table: Table, ids: seq<string>)
    requires SweptUpTo(before, sweep, now, keys, |keys|, table, ids)
    ensures table == SweptTable(before, sweep, now)
  {
    forall id | id in before ensures table[id] == SweptRecord(sweep, before[id], now) {
      assert id in keys;
    }
    assert table.Keys == SweptTable(before, sweep, now).Keys;
  }

  // ---------------------------------------------------------------- runs

  datatype Op =
    | DoInsert(request: Request, at: Instant)
    | DoResolve(response: Response, at: Instant)
    | DoCancel(id: string, reason: string, at: Instant)
    | DoAbort(reason: string, at: Instant)
    | DoExpire(at: Instant)

  function After(table: Table, op: Op): Table {
    match op
    case DoInsert(request, at) => Inserted(table, request, at)
    case DoResolve(response, at) => ResolvedTable(table, response, at)
    case DoCancel(id, reason, at) => CancelledTable(table, id, reason, at)
    case DoAbort(reason, at) => SweptTable(table, AbortSweep(reason), at)
    case DoExpire(at) => SweptTable(table, ExpireSweep, at)
  }

  function Run(ops: seq<Op>): Table {
    if ops == [] then map[] else After(Run(ops[..|ops| - 1]), ops[|ops| - 1])
  }

  /** The operation is answered `Applied` for `id`. */
  predicate AppliesTo(table: Table, op: Op, id: string) {
    op.DoResolve? && op.response.requestId == id && ResolveResult(table, op.response, op.at).Applied?
  }

  function TimesApplied(ops: seq<Op>, id: string): nat {
    if ops == [] then 0
    else
      var n := |ops| - 1;
      TimesApplied(ops[..n], id) + (if AppliesTo(Run(ops[..n]), ops[n], id) then 1 else 0)
  }

  /** What every record of a reachable table looks like. */
  predicate RecordOk(id: string, record: Record) {
    && record.request.requestId == id
    && (record.status == Pending <==> record.resolvedAt == None)
    && (record.response.Some? <==> record.status == Resolved)
    && (record.terminalReason.Some? <==> record.status in {Cancelled, TimedOut, Aborted})
    && (record.response.Some? ==> record.response.value.requestId == id)
    && (record.status == Resolved ==> !IsExpired(record.request.expiresAt, record.resolvedAt.value))
    && (record.status == TimedOut ==> IsExpired(record.request.expiresAt, record.resolvedAt.value))
  }

  predicate TableOk(table: Table) {
    forall id :: id in table ==> RecordOk(id, table[id])
  }

  lemma StepOk(table: Table, op: Op)
    requires TableOk(table)
    ensures TableOk(After(table, op))
  {
    forall id | id in After(table, op) ensures RecordOk(id, After(table, op)[id]) {
      if id in table { assert RecordOk(id, table[id]); }
    }
  }

  /** Any run leaves every record in order. */
  lemma {:induction false} RunOk(ops: seq<Op>)
    ensures TableOk(Run(ops))
    decreases |ops|
  {
    if ops != [] {
      RunOk(ops[..|ops| - 1]);
      StepOk(Run(ops[..|ops| - 1]), ops[|ops| - 1]);
    }
  }

  /** No operation removes a record, changes its request, or touches one that has been settled. */
  lemma SettledStays(table: Table, op: Op, id: string)
    requires id in table
    ensures id in After(table, op)
    ensures After(table, op)[id].request == table[id].request && After(table, op)[id].createdAt == table[id].createdAt
    ensures table[id].status != Pending ==> After(table, op)[id] == table[id]
  {
  }

  /** A settled record is the same for the rest of the run. */
  lemma {:induction false} SettledForever(ops: seq<Op>, more: seq<Op>, id: string)
    requires id in Run(ops) && Run(ops)[id].status != Pending
    ensures id in Run(ops + more) && Run(ops + more)[id] == Run(ops)[id]
    decreases |more|
  {
    if more == [] {
      assert ops + more == ops;
    } else {
      var n := |more| - 1;
      assert (ops + more)[..|ops + more| - 1] == ops + more[..n];
      SettledForever(ops, more[..n], id);
      SettledStays(Run(ops + more[..n]), more[n], id);
    }
  }

  /** Over any run, an id has been answered `Applied` once if its record is resolved, and otherwise never. */
  lemma {:induction false} AppliedIffResolved(ops: seq<Op>, id: string)
    ensures TimesApplied(ops, id) == if id in Run(ops) && Run(ops)[id].status == Resolved then 1 else 0
    decreases |ops|
  {
    if ops != [] {
      var n := |ops| - 1;
      AppliedIffResolved(ops[..n], id);
      StepApplies(Run(ops[..n]), ops[n], id);
    }
  }

  lemma StepApplies(table: Table, op: Op, id: string)
    ensures var was := id in table && table[id].status == Resolved;
            var is' := id in After(table, op) && After(table, op)[id].status == Resolved;
            if AppliesTo(table, op, id) then !was && is' else was == is'
  {
  }

  lemma {:induction false} SweptIdsExact(table: Table, keys: seq<string>, n: nat, sweep: Sweep, now: Instant,
                                         id: string)
    requires TableOk(table) && n <= |keys| && forall k :: k in keys ==> k in table
    ensures id in SweptIds(table, keys, n, sweep, now)
       <==> exists k :: 0 <= k < n && keys[k] == id && Hits(sweep, table[id], now)
  {
    if n > 0 {
      SweptIdsExact(table, keys, n - 1, sweep, now, id);
      assert keys[n - 1] in keys;
      assert RecordOk(keys[n - 1], table[keys[n - 1]]);
    }
  }

  lemma SweptRequestsExact(table: Table, sweep: Sweep, now: Instant, id: string)
    requires TableOk(table)
    ensures id in SweptRequests(table, sweep, now) <==> id in table && Hits(sweep, table[id], now)
  {
    var keys := SortedKeys(table.Keys);
    SweptIdsExact(table, keys, |keys|, sweep, now, id);
    if id in table {
      assert id in keys;
      var k :| 0 <= k < |keys| && keys[k] == id;
    }
  }

  /** Aborting settles exactly the pending records, reports exactly their ids, and leaves none pending. */
  lemma AbortLeavesNonePending(ops: seq<Op>, reason: string, now: Instant, id: string)
    ensures var table, sweep := Run(ops), AbortSweep(reason);
            var after := SweptTable(table, sweep, now);
            && (id in after ==> after[id].status != Pending)
            && (id in SweptRequests(table, sweep, now) <==>
                  id in table && table[id].status == Pending && after[id] == Settle(table[id], Aborted, now, reason))
  {
    RunOk(ops);
    SweptRequestsExact(Run(ops), AbortSweep(reason), now, id);
  }

  /** Expiring settles exactly the pending records whose time has come, and reports exactly their ids. */
  lemma ExpireLeavesNoneOverdue(ops: seq<Op>, now: Instant, id: string)
    ensures var table := Run(ops);
            var after := SweptTable(table, ExpireSweep, now);
            && (id in after && after[id].status == Pending ==>
                  after[id] == table[id] && !IsExpired(after[id].request.expiresAt, now))
            && (id in SweptRequests(table, ExpireSweep, now) <==>
                  id in table && table[id].status == Pending && after[id].status == TimedOut)
  {
    RunOk(ops);
    SweptRequestsExact(Run(ops), ExpireSweep, now, id);
  }
}

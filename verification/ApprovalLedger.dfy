/** The approval ledger: pending requests, grants and an append-only event log that accounts for them. */
module ApprovalLedger {
  import opened Prelude
  import opened TextOrder

  /** A JSON value, as far as the guardrails look into one. */
  datatype Json = JsonText(text: string) | JsonList(items: seq<Json>) | OtherJson(rendered: string)

  type Args = map<string, Json>

  datatype Request = Request(id: string, reason: string, toolName: string, args: Args, riskLabel: string)

  datatype EventKind = Requested | ApprovedOnce | ApprovedForSession | Edited | Denied | Consumed | Rejected | Cleared

  datatype Event = Event(
    kind: EventKind,
    approvalId: string,
    toolName: string,
    riskLabel: string,
    reason: string,
    replacement: Option<string>,
    sessionOnly: bool)

  datatype Resolution = ResolvedPending | ResolvedApproved | ResolvedDenied | ResolvedMissing

  /** How call keys and request ids are derived; `hash` need not be injective. */
  datatype Keying = Keying(sessionKey: (string, Args) -> string, hash: string -> string) {
    function RequestId(toolName: string, args: Args): string {
      hash(sessionKey(toolName, args))
    }
  }

  datatype State = State(
    pending: map<string, Request>,
    rejected: seq<Request>,
    approvedOnce: set<string>,
    approvedForSession: set<string>,
    events: seq<Event>)

  const EMPTY := State(map[], [], {}, {}, [])

  function EventOf(kind: EventKind, request: Request, replacement: Option<string>, sessionOnly: bool): Event {
    Event(kind, request.id, request.toolName, request.riskLabel, request.reason, replacement, sessionOnly)
  }

  function Logged(s: State, kind: EventKind, request: Request, replacement: Option<string>, sessionOnly: bool): State {
    s.(events := s.events + [EventOf(kind, request, replacement, sessionOnly)])
  }

  // ---------------------------------------------------------------- each operation on the state

  function Enqueued(s: State, request: Request): State {
    if request.id in s.pending then s
    else Logged(s.(pending := s.pending[request.id := request]), Requested, request, None, false)
  }

  function OnceApproved(s: State, id: string): State {
    if id !in s.pending then s
    else Logged(s.(approvedOnce := s.approvedOnce + {id}), ApprovedOnce, s.pending[id], None, false)
  }

  function SessionApproved(keying: Keying, s: State, id: string): State {
    if id !in s.pending then s
    else
      var request := s.pending[id];
      var key := keying.sessionKey(request.toolName, request.args);
      Logged(s.(pending := s.pending - {id}, approvedForSession := s.approvedForSession + {key}),
             ApprovedForSession, request, None, true)
  }

  function EditedRequest(keying: Keying, request: Request, args: Args): Request {
    request.(args := args, id := keying.RequestId(request.toolName, args))
  }

  function EditedState(keying: Keying, s: State, id: string, args: Args): State {
    if id !in s.pending then s
    else
      var original := s.pending[id];
      var request := EditedRequest(keying, original, args);
      var moved := s.(pending := (s.pending - {id})[request.id := request]);
      Logged(Logged(moved, Edited, original, Some(request.id), false), Requested, request, None, false)
  }

  function DeniedState(s: State, id: string): State {
    if id !in s.pending then s
    else
      Logged(s.(pending := s.pending - {id}, rejected := s.rejected + [s.pending[id]]), Denied, s.pending[id], None,
             false)
  }

  predicate HasSessionGrant(keying: Keying, s: State, toolName: string, args: Args) {
    keying.sessionKey(toolName, args) in s.approvedForSession
  }

  predicate CanConsume(keying: Keying, s: State, id: string, toolName: string, args: Args) {
    HasSessionGrant(keying, s, toolName, args) || id in s.approvedOnce
  }

  function RiskLabel(toolName: string): string {
    if toolName == "run_command" then "command-execution"
    else if toolName == "run_privileged_command" then "privileged-command-execution"
    else if toolName == "write_file" then "filesystem-write"
    else if "mcp::" <= toolName then "external-tool"
    else "risky-tool"
  }

  /** The request a consumption is logged under: the pending one, or one made up for the log. */
  function ConsumedRequest(s: State, id: string, toolName: string, args: Args, bySession: bool): Request {
    if id in s.pending then s.pending[id]
    else
      Request(id, if bySession then "Consumed session approval" else "Consumed one-time approval",
              toolName, args, RiskLabel(toolName))
  }

  function ConsumedState(keying: Keying, s: State, id: string, toolName: string, args: Args): State {
    if !CanConsume(keying, s, id, toolName, args) then s
    else
      var bySession := HasSessionGrant(keying, s, toolName, args);
      Logged(s.(approvedOnce := s.approvedOnce - {id}, pending := s.pending - {id}),
             Consumed, ConsumedRequest(s, id, toolName, args, bySession), None, bySession)
  }

  function RejectedState(s: State, request: Request): State {
    Logged(s.(pending := s.pending - {request.id}, rejected := s.rejected + [request]), Rejected, request, None, false)
  }

  /** The `Cleared` events of the first `n` of `keys`. */
  function ClearedEvents(pending: map<string, Request>, keys: seq<string>, n: nat): seq<Event>
    requires n <= |keys| && forall k :: k in keys ==> k in pending
  {
    if n == 0 then []
    else ClearedEvents(pending, keys, n - 1) + [EventOf(Cleared, pending[keys[n - 1]], None, false)]
  }

  function AllClearedEvents(pending: map<string, Request>): seq<Event> {
    ClearedEvents(pending, SortedKeys(pending.Keys), |pending.Keys|)
  }

  function ClearedState(s: State): State {
    s.(pending := map[], events := s.events + AllClearedEvents(s.pending))
  }

  /** What is left after saving, restarting and loading again. */
  function Restarted(s: State): State {
    s.(approvedForSession := {})
  }

  function Resolve(keying: Keying, s: State, id: string, toolName: string, args: Args): Resolution {
    if id in s.approvedOnce || HasSessionGrant(keying, s, toolName, args) then ResolvedApproved
    else if exists i :: 0 <= i < |s.rejected| && s.rejected[i].id == id then ResolvedDenied
    else if id in s.pending then ResolvedPending
    else ResolvedMissing
  }

  // ---------------------------------------------------------------- the ledger

  class Ledger {
    const keying: Keying
    var pending: map<string, Request>
    var rejected: seq<Request>
    var approvedOnce: set<string>
    var approvedForSession: set<string>
    var events: seq<Event>

    function Snapshot(): State
      reads this
    {
      State(pending, rejected, approvedOnce, approvedForSession, events)
    }

    constructor (keying: Keying)
      ensures Snapshot() == EMPTY && this.keying == keying
    {
      this.keying := keying;
      pending, rejected, approvedOnce, approvedForSession, events := map[], [], {}, {}, [];
    }

    constructor Persisted(keying: Keying, loaded: State)
      ensures Snapshot() == Restarted(loaded) && this.keying == keying
    {
      this.keying := keying;
      pending, rejected, approvedOnce, approvedForSession, events :=
        loaded.pending, loaded.rejected, loaded.approvedOnce, {}, loaded.events;
    }

    method PushApprovalEvent(kind: EventKind, request: Request, replacement: Option<string>, sessionOnly: bool)
      modifies this`events
      ensures events == old(events) + [EventOf(kind, request, replacement, sessionOnly)]
    {
      events := events + [Event(kind, request.id, request.toolName, request.riskLabel, request.reason, replacement,
                                sessionOnly)];
    }

    method Enqueue(request: Request)
      modifies this
      ensures Snapshot() == Enqueued(old(Snapshot()), request)
    {
      if request.id !in pending {
        pending := pending[request.id := request];
        PushApprovalEvent(Requested, request, None, false);
      }
    }

    method ApproveOnce(id: string) returns (approved: bool)
      modifies this
      ensures Snapshot() == OnceApproved(old(Snapshot()), id)
      ensures approved <==> id in old(pending)
    {
      approved := false;
      if id in pending {
        approvedOnce := approvedOnce + {id};
        PushApprovalEvent(ApprovedOnce, pending[id], None, false);
        approved := true;
      }
    }

    method ApproveOnceRequest(id: string) returns (found: Option<Request>)
      modifies this
      ensures Snapshot() == OnceApproved(old(Snapshot()), id)
      ensures found == if id in old(pending) then Some(old(pending)[id]) else None
    {
      if id !in pending {
        return None;
      }
      var request := pending[id];
      approvedOnce := approvedOnce + {id};
      PushApprovalEvent(ApprovedOnce, request, None, false);
      found := Some(request);
    }

    method ApproveForSession(id: string) returns (found: Option<Request>)
      modifies this
      ensures Snapshot() == SessionApproved(keying, old(Snapshot()), id)
      ensures found == if id in old(pending) then Some(old(pending)[id]) else None
    {
      if id !in pending {
        return None;
      }
      var request := pending[id];
      pending := pending - {id};
      approvedForSession := approvedForSession + {keying.sessionKey(request.toolName, request.args)};
      PushApprovalEvent(ApprovedForSession, request, None, true);
      found := Some(request);
    }

    method Edit(id: string, args: Args) returns (found: Option<Request>)
      modifies this
      ensures Snapshot() == EditedState(keying, old(Snapshot()), id, args)
      ensures found == if id in old(pending) then Some(EditedRequest(keying, old(pending)[id], args)) else None
    {
      if id !in pending {
        return None;
      }
      var original := pending[id];
      pending := pending - {id};
      var request := original.(args := args);
      request := request.(id := keying.RequestId(request.toolName, request.args));
      pending := pending[request.id := request];
      PushApprovalEvent(Edited, original, Some(request.id), false);
      PushApprovalEvent(Requested, request, None, false);
      found := Some(request);
    }

    method Deny(id: string) returns (denied: bool)
      modifies this
      ensures Snapshot() == DeniedState(old(Snapshot()), id)
      ensures denied <==> id in old(pending)
    {
      denied := false;
      if id in pending {
        var request := pending[id];
        pending := pending - {id};
        rejected := rejected + [request];
        PushApprovalEvent(Denied, request, None, false);
        denied := true;
      }
    }

    method ConsumeApproval(id: string, toolName: string, args: Args) returns (consumed: bool)
      modifies this
      ensures Snapshot() == ConsumedState(keying, old(Snapshot()), id, toolName, args)
      ensures consumed == CanConsume(keying, old(Snapshot()), id, toolName, args)
    {
      consumed := false;
      var sessionApproved := keying.sessionKey(toolName, args) in approvedForSession;
      var onceApproved := id in approvedOnce;
      approvedOnce := approvedOnce - {id};
      if sessionApproved || onceApproved {
        var request;
        if id in pending {
          request := pending[id];
        } else {
          request := Request(id, if sessionApproved then "Consumed session approval" else "Consumed one-time approval",
                             toolName, args, RiskLabel(toolName));
        }
        pending := pending - {id};
        PushApprovalEvent(Consumed, request, None, sessionApproved);
        consumed := true;
      }
    }

    method Reject(request: Request)
      modifies this
      ensures Snapshot() == RejectedState(old(Snapshot()), request)
    {
      pending := pending - {request.id};
      rejected := rejected + [request];
      PushApprovalEvent(Rejected, request, None, false);
    }

    method ClearPending()
      modifies this
      ensures Snapshot() == ClearedState(old(Snapshot()))
    {
      var cleared := pending;
      var keys := SortedKeys(cleared.Keys);
      pending := map[];
      LogCleared(cleared, keys);
    }

    method LogCleared(cleared: map<string, Request>, keys: seq<string>)
      requires forall k :: k in keys ==> k in cleared
      modifies this`events
      ensures events == old(events) + ClearedEvents(cleared, keys, |keys|)
    {
      var i := 0;
      while i < |keys|
        invariant 0 <= i <= |keys|
        invariant events == old(events) + ClearedEvents(cleared, keys, i)
      {
        ghost var before := events;
        PushApprovalEvent(Cleared, cleared[keys[i]], None, false);
        i := i + 1;
        assert events == old(events)
               + (ClearedEvents(cleared, keys, i - 1) + [EventOf(Cleared, cleared[keys[i - 1]], None, false)]);
      }
    }

    method ResolutionOf(id: string, toolName: string, args: Args) returns (resolution: Resolution)
      ensures resolution == Resolve(keying, Snapshot(), id, toolName, args)
    {
      if id in approvedOnce || keying.sessionKey(toolName, args) in approvedForSession {
        return ResolvedApproved;
      }
      var i := 0;
      while i < |rejected|
        invariant 0 <= i <= |rejected|
        invariant forall j :: 0 <= j < i ==> rejected[j].id != id
      {
        if rejected[i].id == id {
          return ResolvedDenied;
        }
        i := i + 1;
      }
      resolution := if id in pending then ResolvedPending else ResolvedMissing;
    }
  }

  // ---------------------------------------------------------------- event sourcing

  /** What the log keeps of a request. */
  datatype Note = Note(id: string, toolName: string, riskLabel: string, reason: string)

  /** The part of the ledger that the log determines. */
  datatype View = View(pending: map<string, Note>, rejected: seq<Note>, approvedOnce: set<string>)

  function NoteOf(request: Request): Note {
    Note(request.id, request.toolName, request.riskLabel, request.reason)
  }

  function EventNote(event: Event): Note {
    Note(event.approvalId, event.toolName, event.riskLabel, event.reason)
  }

  function Applied(view: View, event: Event): View {
    var id := event.approvalId;
    match event.kind
    case Requested => view.(pending := view.pending[id := EventNote(event)])
    case ApprovedOnce => view.(approvedOnce := view.approvedOnce + {id})
    case ApprovedForSession => view.(pending := view.pending - {id})
    case Edited => view.(pending := view.pending - {id})
    case Denied => view.(pending := view.pending - {id}, rejected := view.rejected + [EventNote(event)])
    case Consumed => view.(pending := view.pending - {id}, approvedOnce := view.approvedOnce - {id})
    case Rejected => view.(pending := view.pending - {id}, rejected := view.rejected + [EventNote(event)])
    case Cleared => view.(pending := view.pending - {id})
  }

  function Replay(events: seq<Event>): View {
    if events == [] then View(map[], [], {}) else Applied(Replay(events[..|events| - 1]), events[|events| - 1])
  }

  function Notes(requests: seq<Request>): (notes: seq<Note>)
    ensures |notes| == |requests| && forall i :: 0 <= i < |notes| ==> notes[i] == NoteOf(requests[i])
  {
    seq(|requests|, i requires 0 <= i < |requests| => NoteOf(requests[i]))
  }

  function PendingNotes(pending: map<string, Request>): map<string, Note> {
    map id | id in pending :: NoteOf(pending[id])
  }

  function ViewOf(s: State): View {
    View(PendingNotes(s.pending), Notes(s.rejected), s.approvedOnce)
  }

  /** The log accounts for the ledger, and every pending request is filed under its own id. */
  ghost predicate Accounted(s: State) {
    && Replay(s.events) == ViewOf(s)
    && forall id :: id in s.pending ==> s.pending[id].id == id
  }

  lemma ReplayOne(events: seq<Event>, event: Event)
    ensures Replay(events + [event]) == Applied(Replay(events), event)
  {
    assert (events + [event])[..|events|] == events;
  }

  lemma ReplayRemoval(s: State, s': State, event: Event)
    requires Accounted(s)
    requires s'.events == s.events + [event] && s'.pending == s.pending - {event.approvalId}
    requires event.kind in {ApprovedForSession, Edited, Cleared} ==>
               s'.rejected == s.rejected && s'.approvedOnce == s.approvedOnce
    requires event.kind == Consumed ==>
               s'.rejected == s.rejected && s'.approvedOnce == s.approvedOnce - {event.approvalId}
    requires event.kind in {ApprovedForSession, Edited, Cleared, Consumed}
    ensures Accounted(s')
  {
    ReplayOne(s.events, event);
    assert PendingNotes(s'.pending) == PendingNotes(s.pending) - {event.approvalId};
  }

  lemma PendingNotesAdd(pending: map<string, Request>, request: Request)
    ensures PendingNotes(pending[request.id := request]) == PendingNotes(pending)[request.id := NoteOf(request)]
  {
  }

  lemma FilingAccounted(s: State, s': State, request: Request)
    requires Accounted(s)
    requires s'.pending == s.pending[request.id := request] && s'.rejected == s.rejected
             && s'.approvedOnce == s.approvedOnce
    requires s'.events == s.events + [EventOf(Requested, request, None, false)]
    ensures Accounted(s')
  {
    ReplayOne(s.events, EventOf(Requested, request, None, false));
    PendingNotesAdd(s.pending, request);
  }

  lemma EnqueuedAccounted(s: State, request: Request)
    requires Accounted(s)
    ensures Accounted(Enqueued(s, request))
  {
    if request.id !in s.pending {
      FilingAccounted(s, Enqueued(s, request), request);
    }
  }

  lemma OnceApprovedAccounted(s: State, id: string)
    requires Accounted(s)
    ensures Accounted(OnceApproved(s, id))
  {
    if id in s.pending {
      ReplayOne(s.events, EventOf(ApprovedOnce, s.pending[id], None, false));
    }
  }

  lemma SessionApprovedAccounted(keying: Keying, s: State, id: string)
    requires Accounted(s)
    ensures Accounted(SessionApproved(keying, s, id))
  {
    if id in s.pending {
      ReplayRemoval(s, SessionApproved(keying, s, id), EventOf(ApprovedForSession, s.pending[id], None, true));
    }
  }

  lemma EditedAccounted(keying: Keying, s: State, id: string, args: Args)
    requires Accounted(s)
    ensures Accounted(EditedState(keying, s, id, args))
  {
    if id in s.pending {
      var original := s.pending[id];
      var request := EditedRequest(keying, original, args);
      var removed := Logged(s.(pending := s.pending - {id}), Edited, original, Some(request.id), false);
      ReplayRemoval(s, removed, EventOf(Edited, original, Some(request.id), false));
      FilingAccounted(removed, EditedState(keying, s, id, args), request);
    }
  }

  lemma RefusedAccounted(s: State, request: Request, kind: EventKind)
    requires Accounted(s) && (kind == Denied || kind == Rejected)
    ensures Accounted(Logged(s.(pending := s.pending - {request.id}, rejected := s.rejected + [request]), kind,
                             request, None, false))
  {
    ReplayOne(s.events, EventOf(kind, request, None, false));
    assert PendingNotes(s.pending - {request.id}) == PendingNotes(s.pending) - {request.id};
    assert Notes(s.rejected + [request]) == Notes(s.rejected) + [NoteOf(request)];
  }

  lemma ConsumedAccounted(keying: Keying, s: State, id: string, toolName: string, args: Args)
    requires Accounted(s)
    ensures Accounted(ConsumedState(keying, s, id, toolName, args))
  {
    if CanConsume(keying, s, id, toolName, args) {
      var bySession := HasSessionGrant(keying, s, toolName, args);
      ReplayRemoval(s, ConsumedState(keying, s, id, toolName, args),
                    EventOf(Consumed, ConsumedRequest(s, id, toolName, args, bySession), None, bySession));
    }
  }

  function FirstKeys(keys: seq<string>, n: nat): (first: set<string>)
    requires n <= |keys|
    ensures forall i :: 0 <= i < n ==> keys[i] in first
    ensures forall k :: k in first ==> k in keys
  {
    if n == 0 then {} else FirstKeys(keys, n - 1) + {keys[n - 1]}
  }

  /** After the first `n` `Cleared` events, the requests of the other keys are still pending. */
  function WithoutFirst(s: State, keys: seq<string>, n: nat): State
    requires n <= |keys| && forall k :: k in keys ==> k in s.pending
  {
    s.(pending := s.pending - FirstKeys(keys, n), events := s.events + ClearedEvents(s.pending, keys, n))
  }

  lemma {:induction false} ClearingAccounted(s: State, keys: seq<string>, n: nat)
    requires Accounted(s)
    requires n <= |keys| && forall k :: k in keys ==> k in s.pending
    ensures Accounted(WithoutFirst(s, keys, n))
    decreases n
  {
    if n == 0 {
      assert s.events + [] == s.events;
      assert s.pending - {} == s.pending;
      assert WithoutFirst(s, keys, 0) == s;
    } else {
      var before, after := WithoutFirst(s, keys, n - 1), WithoutFirst(s, keys, n);
      ClearingAccounted(s, keys, n - 1);
      var id := keys[n - 1];
      assert id in keys;
      var event := EventOf(Cleared, s.pending[id], None, false);
      assert after.pending == before.pending - {id};
      assert after.events == before.events + [event];
      ReplayRemoval(before, after, event);
    }
  }

  lemma ClearedAccounted(s: State)
    requires Accounted(s)
    ensures Accounted(ClearedState(s))
  {
    var keys := SortedKeys(s.pending.Keys);
    ClearingAccounted(s, keys, |keys|);
    assert FirstKeys(keys, |keys|) == s.pending.Keys by {
      forall k | k in s.pending.Keys ensures k in FirstKeys(keys, |keys|) { assert k in keys; }
      assert forall k :: k in FirstKeys(keys, |keys|) ==> k in keys;
    }
    assert s.pending - s.pending.Keys == map[];
  }

  // ---------------------------------------------------------------- runs of the ledger

  datatype Op =
    | DoEnqueue(request: Request)
    | DoApproveOnce(id: string)
    | DoApproveForSession(id: string)
    | DoEdit(id: string, args: Args)
    | DoDeny(id: string)
    | DoConsume(id: string, toolName: string, args: Args)
    | DoReject(request: Request)
    | DoClearPending
    | DoRestart

  function After(keying: Keying, s: State, op: Op): State {
    match op
    case DoEnqueue(request) => Enqueued(s, request)
    case DoApproveOnce(id) => OnceApproved(s, id)
    case DoApproveForSession(id) => SessionApproved(keying, s, id)
    case DoEdit(id, args) => EditedState(keying, s, id, args)
    case DoDeny(id) => DeniedState(s, id)
    case DoConsume(id, toolName, args) => ConsumedState(keying, s, id, toolName, args)
    case DoReject(request) => RejectedState(s, request)
    case DoClearPending => ClearedState(s)
    case DoRestart => Restarted(s)
  }

  function Run(keying: Keying, ops: seq<Op>): State {
    if ops == [] then EMPTY else After(keying, Run(keying, ops[..|ops| - 1]), ops[|ops| - 1])
  }

  lemma StepAccounted(keying: Keying, s: State, op: Op)
    requires Accounted(s)
    ensures Accounted(After(keying, s, op))
  {
    match op
    case DoEnqueue(request) => EnqueuedAccounted(s, request);
    case DoApproveOnce(id) => OnceApprovedAccounted(s, id);
    case DoApproveForSession(id) => SessionApprovedAccounted(keying, s, id);
    case DoEdit(id, args) => EditedAccounted(keying, s, id, args);
    case DoDeny(id) => if id in s.pending { RefusedAccounted(s, s.pending[id], Denied); }
    case DoConsume(id, toolName, args) => ConsumedAccounted(keying, s, id, toolName, args);
    case DoReject(request) => RefusedAccounted(s, request, Rejected);
    case DoClearPending => ClearedAccounted(s);
    case DoRestart =>
  }

  /** After any run, restarts included, replaying the event log from nothing gives the ledger back. */
  lemma {:induction false} RunIsAccounted(keying: Keying, ops: seq<Op>)
    ensures Accounted(Run(keying, ops))
    decreases |ops|
  {
    if ops != [] {
      RunIsAccounted(keying, ops[..|ops| - 1]);
      StepAccounted(keying, Run(keying, ops[..|ops| - 1]), ops[|ops| - 1]);
    }
  }

  lemma StepLogs(keying: Keying, s: State, op: Op)
    ensures s.events <= After(keying, s, op).events
  {
  }

  /** The log only ever grows: what was logged stays, in its place, for the rest of any run. */
  lemma {:induction false} LogOnlyGrows(keying: Keying, ops: seq<Op>, more: seq<Op>)
    ensures Run(keying, ops).events <= Run(keying, ops + more).events
    decreases |more|
  {
    if more == [] {
      assert ops + more == ops;
    } else {
      var n := |more| - 1;
      assert (ops + more)[..|ops + more| - 1] == ops + more[..n];
      LogOnlyGrows(keying, ops, more[..n]);
      StepLogs(keying, Run(keying, ops + more[..n]), more[n]);
    }
  }

  predicate Concerns(event: Event, kind: EventKind, id: string) {
    event.kind == kind && event.approvalId == id
  }

  /** By the log, `id` was approved once and has not been consumed since. */
  predicate GrantedByLog(events: seq<Event>, id: string) {
    exists i :: 0 <= i < |events| && Concerns(events[i], ApprovedOnce, id)
                && forall j :: i < j < |events| ==> !Concerns(events[j], Consumed, id)
  }

  lemma {:induction false} GrantIsLogged(events: seq<Event>, id: string)
    ensures id in Replay(events).approvedOnce <==> GrantedByLog(events, id)
  {
    if events != [] {
      var front, last := events[..|events| - 1], events[|events| - 1];
      GrantIsLogged(front, id);
      if GrantedByLog(front, id) && !Concerns(last, Consumed, id) {
        var i :| 0 <= i < |front| && Concerns(front[i], ApprovedOnce, id)
                 && forall j :: i < j < |front| ==> !Concerns(front[j], Consumed, id);
        assert Concerns(events[i], ApprovedOnce, id);
        assert forall j :: i < j < |events| ==> !Concerns(events[j], Consumed, id);
      }
      if GrantedByLog(events, id) && !Concerns(last, ApprovedOnce, id) {
        var i :| 0 <= i < |events| && Concerns(events[i], ApprovedOnce, id)
                 && forall j :: i < j < |events| ==> !Concerns(events[j], Consumed, id);
        assert Concerns(front[i], ApprovedOnce, id);
        assert forall j :: i < j < |front| ==> !Concerns(front[j], Consumed, id);
      }
    }
  }

  /** When a run ends in a restart, a call is approved if and only if the log has a one-time approval of it that has not
      been consumed since: no session grant survives, and no such approval is lost. */
  lemma RestartKeepsOnlyOneTimeGrants(keying: Keying, ops: seq<Op>, id: string, toolName: string, args: Args)
    ensures var s := Run(keying, ops + [DoRestart]);
            Resolve(keying, s, id, toolName, args).ResolvedApproved? <==> GrantedByLog(s.events, id)
  {
    var s := Run(keying, ops + [DoRestart]);
    assert (ops + [DoRestart])[..|ops|] == ops;
    RunIsAccounted(keying, ops + [DoRestart]);
    GrantIsLogged(s.events, id);
  }

  /** One-time approval, then one consumption: approved in between, and not any more after, unless by the session. */
  lemma OneApprovalOneUse(keying: Keying, s: State, id: string, toolName: string, args: Args)
    requires id in s.pending
    ensures var approved := OnceApproved(s, id);
            var used := ConsumedState(keying, approved, id, toolName, args);
            && Resolve(keying, approved, id, toolName, args) == ResolvedApproved
            && CanConsume(keying, approved, id, toolName, args)
            && id !in used.pending
            && (CanConsume(keying, used, id, toolName, args) <==> HasSessionGrant(keying, s, toolName, args))
  {
  }

  /** Denying or editing a request leaves an earlier one-time approval of it in force. */
  lemma RefusalKeepsOneTimeApproval(keying: Keying, s: State, id: string, newArgs: Args, toolName: string, args: Args)
    requires id in s.pending
    ensures var approved := OnceApproved(s, id);
            && CanConsume(keying, DeniedState(approved, id), id, toolName, args)
            && CanConsume(keying, EditedState(keying, approved, id, newArgs), id, toolName, args)
  {
  }
}

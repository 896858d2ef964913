/** The append-only log of approval requests, decisions and executions. */
module Approvals {
  import opened Wrappers
  import opened Registry
  import opened Projects
  import opened Gate

  datatype Status =
    | Pending | Approved | Rejected | NotApprovable | Expired
    | ExecutionSucceeded | ExecutionBlocked | ExecutionFailed

  datatype Kind = Request | Verdict | Execution

  /** What a request keeps of the gate's verdict. */
  datatype Basis = Basis(autoAllowed: bool, rollbackAvailable: bool, forbiddenAction: bool, precheck: Precheck)

  datatype Record = Record(
    kind: Kind,
    id: string,
    status: Status,
    approvable: bool,
    existingSafeFix: bool,
    eventType: string,
    fingerprint: string,
    selectedFix: string,
    basis: Option<Basis>)

  type Log = seq<Record>

  predicate HasForbiddenAction(gate: GateResult) {
    gate.reason == ForbiddenAction || ForbiddenAction in gate.precheck.reasons
  }

  function BasisOf(gate: GateResult): Basis {
    Basis(gate.autoAllowed, gate.rollbackAvailable, HasForbiddenAction(gate), gate.precheck)
  }

  /** The fix is the registered safe fix of the event, and ambiguous evidence is the only objection left. */
  predicate IsApprovalCandidate(reg: Registry, eventType: string, fixId: string, basis: Basis) {
    && fixId != ""
    && IsSafeFix(reg, fixId)
    && fixId == FixForEvent(reg, eventType)
    && basis.autoAllowed
    && !basis.forbiddenAction
    && basis.rollbackAvailable
    && (forall r | r in basis.precheck.reasons :: r == AmbiguousEvidence)
    && basis.precheck.actionableCount > 0
    && basis.precheck.unsafeCount == 0
  }

  function RequestFor(reg: Registry, event: Event, gate: GateResult, id: string): Record {
    var approvable := IsApprovalCandidate(reg, event.eventType, gate.selectedFix, BasisOf(gate));
    Record(Request, id, if approvable then Pending else NotApprovable, approvable, approvable,
           event.eventType, event.fingerprint, gate.selectedFix, Some(BasisOf(gate)))
  }

  function FollowUp(request: Record, kind: Kind, status: Status): Record {
    request.(kind := kind, status := status, basis := None)
  }

  /** The first request record with the id; without one the program raises a KeyError. */
  function FindRequest(log: Log, id: string): (r: Option<Record>)
    ensures r.Some? ==> r.value in log && r.value.id == id && r.value.kind == Request
    ensures r.None? ==> forall x | x in log :: !(x.id == id && x.kind == Request)
  {
    if log == [] then None
    else if log[0].id == id && log[0].kind == Request then Some(log[0])
    else FindRequest(log[1..], id)
  }

  /** The last record with the id. */
  function Latest(log: Log, id: string): (r: Option<Record>)
    ensures r.Some? ==> r.value in log && r.value.id == id
    ensures r.None? ==> forall x | x in log :: x.id != id
  {
    if log == [] then None
    else if log[|log| - 1].id == id then Some(log[|log| - 1])
    else Latest(log[..|log| - 1], id)
  }

  function CurrentStatus(log: Log, id: string): Option<Status> {
    match Latest(log, id)
    case Some(r) => Some(r.status)
    case None => None
  }

  predicate CanBeApproved(reg: Registry, request: Record, current: Option<Status>) {
    && request.approvable
    && current == Some(Pending)
    && request.existingSafeFix
    && request.basis.Some?
    && IsApprovalCandidate(reg, request.eventType, request.selectedFix, request.basis.value)
  }

  function ApprovedStatus(reg: Registry, log: Log, request: Record): Status {
    if CanBeApproved(reg, request, CurrentStatus(log, request.id)) then Approved else Rejected
  }

  predicate IsExecutionStatus(s: Status) {
    s == ExecutionSucceeded || s == ExecutionBlocked || s == ExecutionFailed
  }

  /** `records[-max(0, keep):]`: a bound of zero or less keeps the whole log, because the slice is `[-0:]`. */
  function KeepLatest(log: Log, keep: Option<int>): Log {
    match keep
    case None => log
    case Some(k) => if k <= 0 || k >= |log| then log else log[|log| - k..]
  }

  /** One call on the store. */
  datatype StoreOp =
    | Create(event: Event, gate: GateResult, id: string)
    | Approve(id: string)
    | Reject(id: string)
    | Expire(id: string)
    | RecordExecution(id: string, status: Status)
    | Compact(keep: Option<int>)

  /** The record a call appends, if it appends one. */
  function Appended(reg: Registry, log: Log, op: StoreOp): Option<Record> {
    match op
    case Create(event, gate, id) => Some(RequestFor(reg, event, gate, id))
    case Approve(id) => FollowRequest(log, id, r => FollowUp(r, Verdict, ApprovedStatus(reg, log, r)))
    case Reject(id) => FollowRequest(log, id, r => FollowUp(r, Verdict, Rejected))
    case Expire(id) => FollowRequest(log, id, r => FollowUp(r, Verdict, Expired))
    case RecordExecution(id, status) =>
      if IsExecutionStatus(status) then FollowRequest(log, id, r => FollowUp(r, Execution, status)) else None
    case Compact(_) => None
  }

  function FollowRequest(log: Log, id: string, next: Record -> Record): Option<Record> {
    match FindRequest(log, id)
    case Some(r) => Some(next(r))
    case None => None
  }

  function StoreStep(reg: Registry, log: Log, op: StoreOp): Log {
    match op
    case Compact(keep) => KeepLatest(log, keep)
    case _ =>
      match Appended(reg, log, op)
      case Some(r) => log + [r]
      case None => log
  }

  class ApprovalStore {
    const reg: Registry
    var log: Log

    constructor (reg: Registry, log: Log)
      ensures this.reg == reg && this.log == log
    {
      this.reg, this.log := reg, log;
    }

    method GetRequest(id: string) returns (r: Option<Record>)
      ensures r == FindRequest(log, id)
    {
      for i := 0 to |log|
        invariant FindRequest(log, id) == FindRequest(log[i..], id)
      {
        assert log[i..][1..] == log[i + 1..];
        if log[i].id == id && log[i].kind == Request {
          return Some(log[i]);
        }
      }
      return None;
    }

    method LatestRecord(id: string) returns (r: Option<Record>)
      ensures r == Latest(log, id)
    {
      r := None;
      for i := 0 to |log|
        invariant r == Latest(log[..i], id)
      {
        assert log[..i + 1][..i] == log[..i];
        if log[i].id == id {
          r := Some(log[i]);
        }
      }
      assert log[..|log|] == log;
    }

    method CreateRequestFromGate(event: Event, gate: GateResult, id: string) returns (r: Record)
      modifies this
      ensures r == RequestFor(reg, event, gate, id)
      ensures log == StoreStep(reg, old(log), Create(event, gate, id))
    {
      var basis := BasisOf(gate);
      var approvable := IsApprovalCandidate(reg, event.eventType, gate.selectedFix, basis);
      var status := if approvable then Pending else NotApprovable;
      r := Record(Request, id, status, approvable, approvable, event.eventType, event.fingerprint,
                  gate.selectedFix, Some(basis));
      log := log + [r];
    }

    /** None stands for KeyError. An approval that is refused is recorded as a rejection. */
    method ApproveRequest(id: string) returns (r: Option<Record>)
      modifies this
      ensures r == Appended(reg, old(log), Approve(id)) && log == StoreStep(reg, old(log), Approve(id))
    {
      var request := GetRequest(id);
      if request.None? {
        return None;
      }
      var current := LatestRecord(id);
      var status := if CanBeApproved(reg, request.value, if current.Some? then Some(current.value.status) else None)
                    then Approved else Rejected;
      r := Some(FollowUp(request.value, Verdict, status));
      log := log + [r.value];
    }

    method RejectRequest(id: string) returns (r: Option<Record>)
      modifies this
      ensures r == Appended(reg, old(log), Reject(id)) && log == StoreStep(reg, old(log), Reject(id))
    {
      var request := GetRequest(id);
      if request.None? {
        return None;
      }
      r := Some(FollowUp(request.value, Verdict, Rejected));
      log := log + [r.value];
    }

    method ExpireRequest(id: string) returns (r: Option<Record>)
      modifies this
      ensures r == Appended(reg, old(log), Expire(id)) && log == StoreStep(reg, old(log), Expire(id))
    {
      var request := GetRequest(id);
      if request.None? {
        return None;
      }
      r := Some(FollowUp(request.value, Verdict, Expired));
      log := log + [r.value];
    }

    /** None stands for an unknown status or an unknown request. */
    method RecordExecutionOf(id: string, status: Status) returns (r: Option<Record>)
      modifies this
      ensures r == Appended(reg, old(log), RecordExecution(id, status))
      ensures log == StoreStep(reg, old(log), RecordExecution(id, status))
    {
      if !IsExecutionStatus(status) {
        return None;
      }
      var request := GetRequest(id);
      if request.None? {
        return None;
      }
      r := Some(FollowUp(request.value, Execution, status));
      log := log + [r.value];
    }

    method CompactLog(keep: Option<int>)
      modifies this
      ensures log == StoreStep(reg, old(log), Compact(keep))
    {
      if keep.Some? {
        var k := if keep.value < 0 then 0 else keep.value;
        if 0 < k < |log| {
          log := log[|log| - k..];
        }
      }
    }
  }

  // ----- what every run of calls keeps -----

  /**
   The order of the records of one request: the request record comes first and only once, only it is pending,
   and an approval stands directly after a pending request record.
   */
  ghost predicate WellOrdered(log: Log) {
    && (forall i, j | 0 <= i < j < |log| && log[i].id == log[j].id :: log[j].kind != Request)
    && (forall i | 0 <= i < |log| && (log[i].status == Pending || log[i].status == NotApprovable) ::
        log[i].kind == Request)
    && (forall i | 0 <= i < |log| && log[i].status == Approved :: log[i].kind == Verdict)
    && (forall i, j | 0 <= j < i < |log| && log[i].status == Approved && log[j].id == log[i].id ::
        log[j].kind == Request && log[j].status == Pending)
  }

  function Ids(log: Log): set<string> {
    set r | r in log :: r.id
  }

  lemma {:induction false} LatestIsLast(log: Log, id: string) returns (at: nat)
    requires Latest(log, id).Some?
    ensures at < |log| && log[at] == Latest(log, id).value
    ensures forall j | at < j < |log| :: log[j].id != id
  {
    at := |log| - 1;
    if log[at].id != id {
      at := LatestIsLast(log[..|log| - 1], id);
    }
  }

  /** While a request is pending, its request record is the only record it has. */
  lemma PendingHasOneRecord(log: Log, id: string)
    requires WellOrdered(log) && CurrentStatus(log, id) == Some(Pending)
    ensures forall r | r in log && r.id == id :: r == Latest(log, id).value && r.kind == Request && r.status == Pending
  {
    var at := LatestIsLast(log, id);
    assert log[at].kind == Request;
    forall i | 0 <= i < |log| && log[i].id == id
      ensures i == at
    {
    }
  }

  lemma AppendKeepsOrder(log: Log, r: Record)
    requires WellOrdered(log)
    requires r.kind == Request ==> r.id !in Ids(log) && r.status != Approved
    requires r.kind != Request ==> r.status != Pending && r.status != NotApprovable
    requires r.status == Approved ==> r.kind == Verdict && CurrentStatus(log, r.id) == Some(Pending)
    ensures WellOrdered(log + [r])
  {
    if r.status == Approved {
      PendingHasOneRecord(log, r.id);
    }
    assert forall i | 0 <= i < |log| :: log[i].id in Ids(log);
  }

  lemma SuffixKeepsOrder(log: Log, from: nat)
    requires WellOrdered(log) && from <= |log|
    ensures WellOrdered(log[from..])
  {
  }

  /** A new request gets an id that was never used before. */
  predicate FreshId(used: set<string>, op: StoreOp) {
    op.Create? ==> op.id !in used
  }

  lemma StepKeepsOrder(reg: Registry, log: Log, op: StoreOp)
    requires WellOrdered(log) && FreshId(Ids(log), op)
    ensures WellOrdered(StoreStep(reg, log, op))
  {
    match op
    case Compact(keep) =>
      if keep.Some? && 0 < keep.value < |log| {
        SuffixKeepsOrder(log, |log| - keep.value);
      }
    case _ =>
      if Appended(reg, log, op).Some? {
        AppendKeepsOrder(log, Appended(reg, log, op).value);
      }
  }

  /** Pending, then approved, then everything else, a request without records included. */
  function Rank(s: Option<Status>): nat {
    if s == Some(Pending) then 0 else if s == Some(Approved) then 1 else 2
  }

  lemma LatestAfterAppend(log: Log, r: Record, id: string)
    ensures Latest(log + [r], id) == if r.id == id then Some(r) else Latest(log, id)
  {
    assert (log + [r])[..|log|] == log;
  }

  lemma {:induction false} LatestInSuffix(log: Log, from: nat, id: string)
    requires from <= |log|
    ensures Latest(log[from..], id) == Latest(log, id) || Latest(log[from..], id) == None
    ensures (exists r | r in log[from..] :: r.id == id) ==> Latest(log[from..], id) == Latest(log, id)
    decreases |log|
  {
    if from < |log| {
      assert log[from..][..|log| - from - 1] == log[..|log| - 1][from..];
      LatestInSuffix(log[..|log| - 1], from, id);
      assert log[from..] == log[..|log| - 1][from..] + [log[|log| - 1]];
    }
  }

  /** What a call may append to the records of a request that exists. */
  predicate Advances(log: Log, r: Record) {
    r.status != Pending && (r.status == Approved ==> CurrentStatus(log, r.id) == Some(Pending))
  }

  lemma AppendedAdvances(reg: Registry, log: Log, op: StoreOp)
    requires Appended(reg, log, op).Some? && !op.Create?
    ensures Advances(log, Appended(reg, log, op).value)
  {
  }

  lemma AppendNeverReopens(log: Log, r: Record, id: string)
    requires r.id == id ==> Advances(log, r)
    ensures Rank(CurrentStatus(log + [r], id)) >= Rank(CurrentStatus(log, id))
  {
    LatestAfterAppend(log, r, id);
  }

  /** No call ever moves a request that exists back towards pending. */
  lemma StepNeverReopens(reg: Registry, log: Log, op: StoreOp, used: set<string>, id: string)
    requires FreshId(used, op) && id in used
    ensures Rank(CurrentStatus(StoreStep(reg, log, op), id)) >= Rank(CurrentStatus(log, id))
  {
    if op.Compact? {
      if op.keep.Some? && 0 < op.keep.value < |log| {
        LatestInSuffix(log, |log| - op.keep.value, id);
      }
    } else if Appended(reg, log, op).Some? {
      if !op.Create? {
        AppendedAdvances(reg, log, op);
      }
      AppendNeverReopens(log, Appended(reg, log, op).value, id);
    }
  }

  /** The logs before, between and after the calls of a run, with the ids used so far. */
  ghost predicate StoreRun(reg: Registry, logs: seq<Log>, used: seq<set<string>>, ops: seq<StoreOp>) {
    && |logs| == |used| == |ops| + 1
    && WellOrdered(logs[0]) && Ids(logs[0]) <= used[0]
    && forall i | 0 <= i < |ops| ::
        && FreshId(used[i], ops[i])
        && logs[i + 1] == StoreStep(reg, logs[i], ops[i])
        && used[i + 1] == used[i] + if ops[i].Create? then {ops[i].id} else {}
  }

  lemma StepIds(reg: Registry, log: Log, op: StoreOp)
    ensures Ids(StoreStep(reg, log, op)) <= Ids(log) + if op.Create? then {op.id} else {}
  {
    if !op.Create? && Appended(reg, log, op).Some? {
      assert Appended(reg, log, op).value.id in Ids(log);
    }
  }

  lemma {:induction false} RunKeepsOrder(reg: Registry, logs: seq<Log>, used: seq<set<string>>, ops: seq<StoreOp>,
                                         i: nat)
    requires StoreRun(reg, logs, used, ops) && i <= |ops|
    ensures WellOrdered(logs[i]) && Ids(logs[i]) <= used[i] && used[0] <= used[i]
  {
    if i > 0 {
      RunKeepsOrder(reg, logs, used, ops, i - 1);
      var k := i - 1;
      assert logs[k + 1] == StoreStep(reg, logs[k], ops[k]);
      StepKeepsOrder(reg, logs[k], ops[k]);
      StepIds(reg, logs[k], ops[k]);
    }
  }

  /** After every sequence of calls: a request was approved at most once, and nothing but its request came before. */
  lemma ApprovedOnceAndFirst(reg: Registry, logs: seq<Log>, used: seq<set<string>>, ops: seq<StoreOp>, n: nat, i: nat,
                             j: nat)
    requires StoreRun(reg, logs, used, ops) && n <= |ops| && i < |logs[n]| && j < |logs[n]| && i != j
    requires logs[n][i].id == logs[n][j].id && logs[n][i].status == Approved
    ensures logs[n][j].status != Approved
    ensures j < i ==> logs[n][j].kind == Request && logs[n][j].status == Pending
  {
    RunKeepsOrder(reg, logs, used, ops, n);
  }

  /**
   Over every sequence of calls, compactions included, a request that left pending never returns to it, and one
   that left approved never returns to that either.
   */
  lemma {:induction false} RunNeverReopens(reg: Registry, logs: seq<Log>, used: seq<set<string>>, ops: seq<StoreOp>,
                                           i: nat, j: nat, id: string)
    requires StoreRun(reg, logs, used, ops) && i <= j <= |ops| && id in used[i]
    ensures id in used[j]
    ensures Rank(CurrentStatus(logs[j], id)) >= Rank(CurrentStatus(logs[i], id))
    decreases j
  {
    if i < j {
      RunNeverReopens(reg, logs, used, ops, i, j - 1, id);
      var k := j - 1;
      assert logs[k + 1] == StoreStep(reg, logs[k], ops[k]);
      RunKeepsOrder(reg, logs, used, ops, k);
      StepNeverReopens(reg, logs[k], ops[k], used[k], id);
    }
  }

  /** The call writes an approval of the request. */
  predicate Grants(reg: Registry, log: Log, op: StoreOp, id: string) {
    match Appended(reg, log, op)
    case Some(r) => r.id == id && r.status == Approved
    case None => false
  }

  /** An approval is only ever granted to a pending, approvable request whose basis still qualifies. */
  lemma GrantNeedsPending(reg: Registry, log: Log, op: StoreOp, id: string)
    requires Grants(reg, log, op, id)
    ensures op == Approve(id) && CurrentStatus(log, id) == Some(Pending)
    ensures FindRequest(log, id).Some? && FindRequest(log, id).value.approvable
    ensures var r := FindRequest(log, id).value;
      r.basis.Some? && IsApprovalCandidate(reg, r.eventType, r.selectedFix, r.basis.value)
    ensures CurrentStatus(StoreStep(reg, log, op), id) == Some(Approved)
  {
    LatestAfterAppend(log, Appended(reg, log, op).value, id);
  }

  /** No run grants the same request twice, even when the log is compacted in between. */
  lemma GrantedAtMostOnce(reg: Registry, logs: seq<Log>, used: seq<set<string>>, ops: seq<StoreOp>, i: nat, j: nat,
                          id: string)
    requires StoreRun(reg, logs, used, ops) && i < j < |ops|
    requires Grants(reg, logs[i], ops[i], id)
    ensures !Grants(reg, logs[j], ops[j], id)
  {
    GrantNeedsPending(reg, logs[i], ops[i], id);
    assert logs[i + 1] == StoreStep(reg, logs[i], ops[i]);
    RunKeepsOrder(reg, logs, used, ops, i);
    RunKeepsOrder(reg, logs, used, ops, i + 1);
    assert id in used[i + 1] by {
      assert FindRequest(logs[i], id).value.id in Ids(logs[i]);
    }
    RunNeverReopens(reg, logs, used, ops, i + 1, j, id);
    if Grants(reg, logs[j], ops[j], id) {
      GrantNeedsPending(reg, logs[j], ops[j], id);
    }
  }

  lemma OneRequest(log: Log, left: Record, right: Record)
    requires WellOrdered(log) && left in log && right in log
    requires left.kind == Request && right.kind == Request && left.id == right.id
    ensures left == right
  {
    var i :| 0 <= i < |log| && log[i] == left;
    var j :| 0 <= j < |log| && log[j] == right;
    assert i == j;
  }

  /** Compaction preserves the status, and the request record, of every request whose request record survives. */
  lemma CompactKeepsStatus(reg: Registry, log: Log, keep: Option<int>, id: string)
    requires WellOrdered(log)
    requires FindRequest(KeepLatest(log, keep), id).Some?
    ensures CurrentStatus(KeepLatest(log, keep), id) == CurrentStatus(log, id)
    ensures FindRequest(KeepLatest(log, keep), id) == FindRequest(log, id)
  {
    if keep.Some? && 0 < keep.value < |log| {
      var from := |log| - keep.value;
      var kept := FindRequest(log[from..], id).value;
      assert kept in log[from..] && kept in log;
      OneRequest(log, kept, FindRequest(log, id).value);
      LatestInSuffix(log, from, id);
    }
  }

  /** A limit of zero or less keeps every record, because the slice it asks for is the whole list. */
  lemma CompactKeepsCount(log: Log, keep: int)
    ensures |KeepLatest(log, Some(keep))| == if 0 < keep < |log| then keep else |log|
    ensures keep <= 0 ==> KeepLatest(log, Some(keep)) == log
  {
  }

  // ----- which status may follow which -----

  /**
   What a call may make of a request that exists: rejected, expired or executed in any way from any status, approved
   only from pending and only when it qualifies, and nothing else.
   */
  predicate MayFollow(reg: Registry, log: Log, id: string, next: Status) {
    match FindRequest(log, id)
    case None => false
    case Some(request) =>
      || next == Rejected || next == Expired
      || next == ExecutionSucceeded || next == ExecutionBlocked || next == ExecutionFailed
      || (next == Approved && CanBeApproved(reg, request, CurrentStatus(log, id)))
  }

  /** The call appends a record of the request with this status, and is no new request. */
  ghost predicate MovesTo(reg: Registry, log: Log, op: StoreOp, id: string, next: Status) {
    !op.Create? && Appended(reg, log, op).Some?
    && Appended(reg, log, op).value.id == id && Appended(reg, log, op).value.status == next
  }

  function CallFor(id: string, next: Status): StoreOp {
    match next
    case Approved => Approve(id)
    case Rejected => Reject(id)
    case Expired => Expire(id)
    case _ => RecordExecution(id, next)
  }

  /** Some call moves a request to a status exactly when that status may follow; the call then sets it, and no other. */
  lemma StatusFollowsIff(reg: Registry, log: Log, id: string, next: Status)
    ensures (exists op :: MovesTo(reg, log, op, id, next)) <==> MayFollow(reg, log, id, next)
    ensures forall op | MovesTo(reg, log, op, id, next) :: CurrentStatus(StoreStep(reg, log, op), id) == Some(next)
  {
    forall op | MovesTo(reg, log, op, id, next)
      ensures MayFollow(reg, log, id, next) && CurrentStatus(StoreStep(reg, log, op), id) == Some(next)
    {
      LatestAfterAppend(log, Appended(reg, log, op).value, id);
    }
    if MayFollow(reg, log, id, next) {
      assert MovesTo(reg, log, CallFor(id, next), id, next);
    }
  }

  /** What a call appends: nothing for an unknown request or status, and otherwise a record about that request. */
  lemma AppendedIs(reg: Registry, log: Log, op: StoreOp)
    requires !op.Compact?
    ensures Appended(reg, log, op).None? <==>
      || (!op.Create? && FindRequest(log, op.id).None?)
      || (op.RecordExecution? && op.status !in {ExecutionSucceeded, ExecutionBlocked, ExecutionFailed})
    ensures Appended(reg, log, op).Some? ==>
      var r := Appended(reg, log, op).value;
      && r.id == op.id && StoreStep(reg, log, op) == log + [r]
      && r.kind == (if op.Create? then Request else if op.RecordExecution? then Execution else Verdict)
      && (r.basis.Some? <==> op.Create?)
      && (op.Reject? ==> r.status == Rejected)
      && (op.Expire? ==> r.status == Expired)
      && (op.RecordExecution? ==> r.status == op.status)
      && (op.Approve? ==> r.status == Approved || r.status == Rejected)
      && (!op.Create? ==>
          var request := FindRequest(log, op.id).value;
          && r.eventType == request.eventType && r.fingerprint == request.fingerprint
          && r.selectedFix == request.selectedFix && r.approvable == request.approvable)
  {
  }

  /** A call on one request leaves the status of every other as it was. */
  lemma OtherStatusKept(reg: Registry, log: Log, op: StoreOp, other: string)
    requires !op.Compact? && op.id != other
    ensures CurrentStatus(StoreStep(reg, log, op), other) == CurrentStatus(log, other)
  {
    if Appended(reg, log, op).Some? {
      LatestAfterAppend(log, Appended(reg, log, op).value, other);
    }
  }
}

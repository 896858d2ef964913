/** The history of one request in the approval log: how long an approval stays open. */
module ApprovalHistory {
  import opened Wrappers
  import opened Registry
  import opened Projects
  import opened Gate
  import opened Approvals

  /** The call appends a record of a request that exists: a verdict, an expiry or an execution. */
  predicate Touches(op: StoreOp, id: string) {
    match op
    case Approve(x) => x == id
    case Reject(x) => x == id
    case Expire(x) => x == id
    case RecordExecution(x, status) => x == id && IsExecutionStatus(status)
    case _ => false
  }

  /** No call from `i` up to `j` touches the request. */
  predicate Untouched(ops: seq<StoreOp>, i: nat, j: nat, id: string)
    requires j <= |ops|
  {
    forall k | i <= k < j :: !Touches(ops[k], id)
  }

  lemma UntouchedOneMore(ops: seq<StoreOp>, i: nat, j: nat, id: string)
    requires i <= j < |ops|
    ensures Untouched(ops, i, j + 1, id) <==> Untouched(ops, i, j, id) && !Touches(ops[j], id)
  {
  }

  lemma {:induction false} FindAfterAppend(log: Log, r: Record, id: string)
    ensures FindRequest(log + [r], id) ==
      if FindRequest(log, id).Some? then FindRequest(log, id)
      else if r.id == id && r.kind == Request then Some(r) else None
  {
    if log == [] {
      assert (log + [r])[1..] == [];
    } else {
      assert (log + [r])[1..] == log[1..] + [r];
      FindAfterAppend(log[1..], r, id);
    }
  }

  lemma FindInSuffix(log: Log, keep: Option<int>, id: string)
    requires FindRequest(KeepLatest(log, keep), id).Some?
    ensures FindRequest(log, id).Some?
  {
    var r := FindRequest(KeepLatest(log, keep), id).value;
    assert r in log;
  }

  /** A request that is there was there before, unless the call created it. */
  lemma RequestWasThere(reg: Registry, log: Log, op: StoreOp, id: string)
    requires FindRequest(StoreStep(reg, log, op), id).Some? && !(op.Create? && op.id == id)
    ensures FindRequest(log, id).Some?
  {
    if op.Compact? {
      FindInSuffix(log, op.keep, id);
    } else if Appended(reg, log, op).Some? {
      FindAfterAppend(log, Appended(reg, log, op).value, id);
    }
  }

  /** One call on the store while a request is approved: it stays so exactly if the call does not touch it. */
  lemma StepKeepsApproved(reg: Registry, log: Log, op: StoreOp, id: string)
    requires WellOrdered(log) && FreshId(Ids(log), op)
    requires FindRequest(log, id).Some? && CurrentStatus(log, id) == Some(Approved)
    requires FindRequest(StoreStep(reg, log, op), id).Some?
    ensures FindRequest(StoreStep(reg, log, op), id) == FindRequest(log, id)
    ensures CurrentStatus(StoreStep(reg, log, op), id) == Some(Approved) <==> !Touches(op, id)
  {
    assert FindRequest(log, id).value.id in Ids(log);
    if op.Compact? {
      CompactKeepsStatus(reg, log, op.keep, id);
    } else if Appended(reg, log, op).Some? {
      FindAfterAppend(log, Appended(reg, log, op).value, id);
      LatestAfterAppend(log, Appended(reg, log, op).value, id);
    }
  }

  lemma {:induction false} RequestThereAllAlong(reg: Registry, logs: seq<Log>, used: seq<set<string>>,
                                                ops: seq<StoreOp>,
                                                i: nat, j: nat, id: string)
    requires StoreRun(reg, logs, used, ops) && i <= j <= |ops| && id in used[i] && FindRequest(logs[j], id).Some?
    ensures FindRequest(logs[i], id).Some?
    decreases j
  {
    if i < j {
      var k := j - 1;
      assert logs[k + 1] == StoreStep(reg, logs[k], ops[k]) && FreshId(used[k], ops[k]);
      RunNeverReopens(reg, logs, used, ops, i, k, id);
      RequestWasThere(reg, logs[k], ops[k], id);
      RequestThereAllAlong(reg, logs, used, ops, i, k, id);
    }
  }

  predicate Open(log: Log, id: string) {
    FindRequest(log, id).Some? && CurrentStatus(log, id) == Some(Approved)
  }

  /**
   Once a request is no longer pending, one call leaves it open exactly if it was open and the call does not touch it.
   */
  lemma StepOpenIff(reg: Registry, log: Log, op: StoreOp, used: set<string>, id: string)
    requires WellOrdered(log) && Ids(log) <= used && FreshId(used, op) && id in used
    requires Rank(CurrentStatus(log, id)) >= 1 && FindRequest(StoreStep(reg, log, op), id).Some?
    ensures Open(StoreStep(reg, log, op), id) <==> Open(log, id) && !Touches(op, id)
    ensures Open(StoreStep(reg, log, op), id) ==> FindRequest(StoreStep(reg, log, op), id) == FindRequest(log, id)
  {
    RequestWasThere(reg, log, op, id);
    if Open(log, id) {
      StepKeepsApproved(reg, log, op, id);
    } else {
      StepNeverReopens(reg, log, op, used, id);
    }
  }

  /** An approval that is open at `i` is so at `j` exactly if its request survives and no call touches it. */
  lemma {:induction false} StaysApprovedIff(reg: Registry, logs: seq<Log>, used: seq<set<string>>, ops: seq<StoreOp>,
                                            i: nat, j: nat, id: string)
    requires StoreRun(reg, logs, used, ops) && i <= j <= |ops| && Open(logs[i], id) && FindRequest(logs[j], id).Some?
    ensures Open(logs[j], id) <==> Untouched(ops, i, j, id)
    ensures Open(logs[j], id) ==> FindRequest(logs[j], id) == FindRequest(logs[i], id)
    decreases j
  {
    if i < j {
      var k := j - 1;
      IdIsUsed(reg, logs, used, ops, i, id);
      RunNeverReopens(reg, logs, used, ops, i, k, id);
      RequestThereAllAlong(reg, logs, used, ops, k, j, id);
      StaysApprovedIff(reg, logs, used, ops, i, k, id);
      RunKeepsOrder(reg, logs, used, ops, k);
      assert logs[k + 1] == StoreStep(reg, logs[k], ops[k]) && FreshId(used[k], ops[k]);
      StepOpenIff(reg, logs[k], ops[k], used[k], id);
      UntouchedOneMore(ops, i, k, id);
    }
  }

  lemma IdIsUsed(reg: Registry, logs: seq<Log>, used: seq<set<string>>, ops: seq<StoreOp>, i: nat, id: string)
    requires StoreRun(reg, logs, used, ops) && i <= |ops| && FindRequest(logs[i], id).Some?
    ensures id in used[i]
  {
    RunKeepsOrder(reg, logs, used, ops, i);
    assert FindRequest(logs[i], id).value.id in Ids(logs[i]);
  }

  // ----- where an approval comes from -----

  /** What a person may approve: the safe fix of the event, granted but for ambiguous evidence, and a plan to write. */
  predicate Approvable(reg: Registry, event: Event, gate: GateResult) {
    && gate.selectedFix == FixForEvent(reg, event.eventType) != "" && IsSafeFix(reg, gate.selectedFix)
    && gate.autoAllowed && gate.rollbackAvailable && gate.reason != ForbiddenAction
    && (forall r | r in gate.precheck.reasons :: r == AmbiguousEvidence)
    && gate.precheck.actionableCount > 0 && gate.precheck.unsafeCount == 0
  }

  /** A request is pending exactly if a person may approve it, and cannot be approved otherwise. */
  lemma RequestIs(reg: Registry, event: Event, gate: GateResult, id: string)
    ensures var r := RequestFor(reg, event, gate, id);
      && r.kind == Request && r.id == id && r.eventType == event.eventType && r.fingerprint == event.fingerprint
      && r.selectedFix == gate.selectedFix && r.basis.Some? && r.basis.value.precheck == gate.precheck
      && r.basis.value.autoAllowed == gate.autoAllowed && r.basis.value.rollbackAvailable == gate.rollbackAvailable
      && r.basis.value.forbiddenAction == (gate.reason == ForbiddenAction || ForbiddenAction in gate.precheck.reasons)
      && r.approvable == r.existingSafeFix == Approvable(reg, event, gate)
      && r.status == if Approvable(reg, event, gate) then Pending else NotApprovable
  {
    if ForbiddenAction in gate.precheck.reasons {
      assert !Approvable(reg, event, gate);
    }
  }

  /** The call asked for what the record is about, and an approval of the record is one of what may be approved. */
  predicate Asks(reg: Registry, op: StoreOp, r: Record) {
    && op.Create? && op.id == r.id && op.event.eventType == r.eventType && op.event.fingerprint == r.fingerprint
    && op.gate.selectedFix == r.selectedFix
    && (r.approvable ==> Approvable(reg, op.event, op.gate))
    && (r.status == Approved ==> r.approvable)
  }

  ghost predicate Asked(reg: Registry, ops: seq<StoreOp>, n: nat, r: Record) {
    exists k | 0 <= k < n && k < |ops| :: Asks(reg, ops[k], r)
  }

  lemma StepAsked(reg: Registry, ops: seq<StoreOp>, n: nat, log: Log, r: Record)
    requires n < |ops| && r in StoreStep(reg, log, ops[n])
    requires forall x | x in log :: Asked(reg, ops, n, x)
    ensures Asked(reg, ops, n + 1, r)
  {
    var op := ops[n];
    if r in log {
      var k :| 0 <= k < n && k < |ops| && Asks(reg, ops[k], r);
    } else if op.Create? {
      RequestIs(reg, op.event, op.gate, op.id);
      assert Asks(reg, ops[n], r);
    } else {
      var request := FindRequest(log, op.id).value;
      var k :| 0 <= k < n && k < |ops| && Asks(reg, ops[k], request);
      assert Asks(reg, ops[k], r);
    }
  }

  /**
   Every record of a log that began empty has been asked for, with its event and fix. In particular what is approved
   was asked for by a call whose verdict a person may approve, over any calls and compactions.
   */
  lemma {:induction false} ApprovedWasAsked(reg: Registry, logs: seq<Log>, used: seq<set<string>>, ops: seq<StoreOp>,
                                            n: nat, r: Record)
    requires StoreRun(reg, logs, used, ops) && logs[0] == [] && n <= |ops| && r in logs[n]
    ensures exists k | 0 <= k < n ::
      && ops[k].Create? && ops[k].id == r.id && ops[k].event.eventType == r.eventType
      && ops[k].event.fingerprint == r.fingerprint && ops[k].gate.selectedFix == r.selectedFix
      && (r.status == Approved ==> Approvable(reg, ops[k].event, ops[k].gate))
  {
    RunAsked(reg, logs, used, ops, n, r);
    var k :| 0 <= k < n && k < |ops| && Asks(reg, ops[k], r);
  }

  lemma {:induction false} RunAsked(reg: Registry, logs: seq<Log>, used: seq<set<string>>, ops: seq<StoreOp>, n: nat,
                                    r: Record)
    requires StoreRun(reg, logs, used, ops) && logs[0] == [] && n <= |ops| && r in logs[n]
    ensures Asked(reg, ops, n, r)
  {
    var k := n - 1;
    assert logs[k + 1] == StoreStep(reg, logs[k], ops[k]);
    forall x | x in logs[k] ensures Asked(reg, ops, k, x) {
      RunAsked(reg, logs, used, ops, k, x);
    }
    StepAsked(reg, ops, k, logs[k], r);
  }
}

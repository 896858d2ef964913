/** How often one approval can be used. */
module ApprovalRuns {
  import opened Wrappers
  import opened Registry
  import opened Projects
  import opened Gate
  import opened Approvals
  import opened ApprovalHistory
  import opened Runner
  import opened RunnerTheorems

  /**
   A recovery call adds one request at most, and with an approval nothing at all: using an approval does not spend it.
   */
  lemma RecoveryLog(cfg: Setup, st: RunnerState, call: Call)
    ensures var after := Recovery(cfg, st, call).0.log;
      if call.approvalId != "" then after == st.log
      else after == st.log || exists gate :: after == StoreStep(cfg.reg, st.log, Create(call.event, gate, call.newId))
  {
    var gate := Decide(cfg, st, call).1;
    assert StoreStep(cfg.reg, st.log, Create(call.event, gate, call.newId)) ==
      st.log + [RequestFor(cfg.reg, call.event, gate, call.newId)];
  }

  /**
   An approval that covers a verdict at one point of a run of store calls covers it at a later point if and only if
   its request was not compacted away and no verdict, expiry or execution was recorded for it in between.
   */
  lemma ApprovalFitsIff(cfg: Setup, logs: seq<Log>, used: seq<set<string>>, ops: seq<StoreOp>, i: nat, j: nat,
                        event: Event,
                        gate: GateResult, id: string)
    requires StoreRun(cfg.reg, logs, used, ops) && i <= j <= |ops|
    requires ApprovalProblem(cfg, logs[i], event, gate, id) == None
    ensures ApprovalProblem(cfg, logs[j], event, gate, id) == None <==>
      FindRequest(logs[j], id).Some? && Untouched(ops, i, j, id)
  {
    if FindRequest(logs[j], id).Some? {
      StaysApprovedIff(cfg.reg, logs, used, ops, i, j, id);
    }
  }

  /**
   At most one execution per approval: two calls with one approval can both execute only if no execution, and nothing
   else, was recorded for it in between. Whoever records each execution before the next call executes once.
   */
  lemma OneExecutionPerApproval(cfg: Setup, logs: seq<Log>, used: seq<set<string>>, ops: seq<StoreOp>, i: nat, j: nat,
                                first: RunnerState, second: RunnerState, call: Call, again: Call)
    requires StoreRun(cfg.reg, logs, used, ops) && i <= j <= |ops| && first.log == logs[i] && second.log == logs[j]
    requires call.approvalId == again.approvalId != ""
    requires Recovery(cfg, first, call).1.executed && Recovery(cfg, second, again).1.executed
    ensures Untouched(ops, i, j, call.approvalId)
  {
    ApprovalOnlyNarrows(cfg, first, call);
    ApprovalOnlyNarrows(cfg, second, again);
    StaysApprovedIff(cfg.reg, logs, used, ops, i, j, call.approvalId);
  }
}

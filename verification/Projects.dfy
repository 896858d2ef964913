/** Detected events and the project settings that recovery consults. */
module Projects {
  import opened Wrappers

  datatype Event = Event(
    eventType: string,
    issueType: string,
    severity: string,
    summary: string,
    keywords: seq<string>,
    excerpt: string,
    signature: string,
    fingerprint: string,
    lineNumber: int,
    spanStart: int,
    spanEnd: int)

  datatype PolicyConfig = PolicyConfig(
    autoRecover: bool,
    allowAutoApply: seq<string>,
    escalationRequired: seq<string>,
    rollbackOnFailure: bool,
    rerunAfterApply: bool,
    policyEnabled: bool,
    dryRun: bool,
    requireHumanApproval: bool,
    fingerprintSeconds: int,
    eventTypeSeconds: int,
    projectSeconds: int)

  datatype Project = Project(
    projectId: string,
    isRemote: bool,
    projectDir: string,
    remoteProjectDir: string,
    policy: PolicyConfig)
  {
    function EffectiveDir(): string {
      if isRemote then remoteProjectDir else projectDir
    }
  }
}

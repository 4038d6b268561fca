/** What the supervisor knows of one execution attempt, and when a polled health cycle passes. */
module HealthContract {
  import opened Wrappers

  const HEALTH_DEADLINE_SECONDS := 120

  datatype RuntimeState =
    | NotStarted
    | InProgress
    | CompletedHealthUnknown
    | Failed
    | Healthy
    | Unknown

  /** A compose service: one of the two approved ones, or any other name. */
  datatype Service = Api | FeishuWorker | Unapproved(name: string)

  datatype SupervisorAttempt = SupervisorAttempt(
    deploymentId: nat,
    attemptId: nat,
    fencingEpoch: nat,
    repository: string,
    targetSha: string,
    intentHash: string,
    serviceImages: map<Service, string>,
    artifactDigest: string,
    migrationRevision: Option<string>)

  /** The keys of the health dictionary: six common ones, three for each service (its name followed by a dot and
      alive, ready or live), two probes of the api and the connection flag of the worker. */
  datatype Check =
    | ArtifactDigest
    | RevisionSha
    | Migration
    | Smoke
    | CriticalRegression
    | VerificationWithinTimeout
    | Alive(service: Service)
    | Ready(service: Service)
    | Live(service: Service)
    | ApiHttp
    | ApiDependencyDb
    | WorkerConnected

  datatype HealthCycle = HealthCycle(
    checks: map<Check, bool>,
    observedDigest: string,
    observedSha: string,
    migrationRevision: Option<string>,
    completedAt: int)

  const COMMON_CHECKS := {ArtifactDigest, RevisionSha, Migration, Smoke, CriticalRegression, VerificationWithinTimeout}
  const API_CHECKS := {Alive(Api), Ready(Api), Live(Api), ApiHttp, ApiDependencyDb}
  const WORKER_CHECKS := {Alive(FeishuWorker), Ready(FeishuWorker), Live(FeishuWorker), WorkerConnected}

  /** The canonical health schema of a service set. */
  function RequiredHealthChecks(services: set<Service>): set<Check> {
    COMMON_CHECKS
    + (if Api in services then API_CHECKS else {})
    + (if FeishuWorker in services then WORKER_CHECKS else {})
  }

  /** The same schema, name by name. */
  predicate Required(services: set<Service>, check: Check) {
    match check
    case Alive(s) => s in services && !s.Unapproved?
    case Ready(s) => s in services && !s.Unapproved?
    case Live(s) => s in services && !s.Unapproved?
    case ApiHttp => Api in services
    case ApiDependencyDb => Api in services
    case WorkerConnected => FeishuWorker in services
    case _ => true
  }

  lemma RequiredExactly(services: set<Service>)
    ensures forall check :: check in RequiredHealthChecks(services) <==> Required(services, check)
  {
    forall check ensures check in RequiredHealthChecks(services) <==> Required(services, check) {
      match check
      case Alive(s) => {}
      case Ready(s) => {}
      case Live(s) => {}
      case _ => {}
    }
  }

  /** The supervisor's own acceptance test of a cycle that verify_health returned. */
  predicate Passes(attempt: SupervisorAttempt, cycle: HealthCycle, deadline: int) {
    && cycle.checks.Keys == RequiredHealthChecks(attempt.serviceImages.Keys)
    && (forall name <- cycle.checks.Keys :: cycle.checks[name])
    && cycle.observedDigest == attempt.artifactDigest
    && cycle.observedSha == attempt.targetSha
    && (attempt.migrationRevision.None? || cycle.migrationRevision == attempt.migrationRevision)
    && cycle.completedAt <= deadline
  }
}

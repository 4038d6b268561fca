/** The deployment states and the table of legal transitions between them. */
module DeployStates {
  import opened Wrappers

  datatype DeployState =
    | IntentCreated
    | ArtifactRecorded
    | StagingDeploying
    | StagingValidated
    | StagingFailed
    | ProductionApprovalPending
    | ProductionDeploying
    | ProductionHealthy
    | ProductionFailed
    | RollbackApprovalPending
    | RollbackDeploying
    | RolledBack
    | RollbackFailed

  /** DEPLOYMENT_TRANSITIONS; None stands for the initial state. */
  function Transitions(from: Option<DeployState>): set<DeployState> {
    match from
    case None => {IntentCreated}
    case Some(IntentCreated) => {ArtifactRecorded}
    case Some(ArtifactRecorded) => {StagingDeploying}
    case Some(StagingDeploying) => {StagingValidated, StagingFailed}
    case Some(StagingValidated) => {ProductionApprovalPending, RollbackApprovalPending}
    case Some(ProductionApprovalPending) => {ProductionDeploying}
    case Some(ProductionDeploying) => {ProductionHealthy, ProductionFailed}
    case Some(RollbackApprovalPending) => {RollbackDeploying}
    case Some(RollbackDeploying) => {RolledBack, RollbackFailed}
    case Some(_) => {}
  }

  predicate Legal(from: Option<DeployState>, to: DeployState) {
    to in Transitions(from)
  }

  predicate Terminal(state: DeployState) {
    Transitions(Some(state)) == {}
  }

  function Rank(state: Option<DeployState>): nat {
    match state
    case None => 0
    case Some(IntentCreated) => 1
    case Some(ArtifactRecorded) => 2
    case Some(StagingDeploying) => 3
    case Some(StagingValidated) => 4
    case Some(StagingFailed) => 4
    case Some(ProductionApprovalPending) => 5
    case Some(RollbackApprovalPending) => 5
    case Some(ProductionDeploying) => 6
    case Some(RollbackDeploying) => 6
    case Some(_) => 7
  }

  /** The table, pair by pair. */
  lemma LegalExactly(from: DeployState, to: DeployState)
    ensures Legal(None, to) <==> to == IntentCreated
    ensures Legal(Some(from), to) <==> (from, to) in {
      (IntentCreated, ArtifactRecorded), (ArtifactRecorded, StagingDeploying), (StagingDeploying, StagingValidated),
      (StagingDeploying, StagingFailed), (StagingValidated, ProductionApprovalPending),
      (StagingValidated, RollbackApprovalPending), (ProductionApprovalPending, ProductionDeploying),
      (ProductionDeploying, ProductionHealthy), (ProductionDeploying, ProductionFailed),
      (RollbackApprovalPending, RollbackDeploying), (RollbackDeploying, RolledBack),
      (RollbackDeploying, RollbackFailed)}
  {
  }

  /** Every legal transition climbs exactly one rank, so no deployment has more than seven events. */
  lemma LegalClimbs(from: Option<DeployState>, to: DeployState)
    requires Legal(from, to)
    ensures Rank(Some(to)) == Rank(from) + 1 <= 7
  {
  }

  function At(log: seq<DeployState>): Option<DeployState> {
    if log == [] then None else Some(log[|log| - 1])
  }

  /** A log that the table allows. */
  predicate Chain(log: seq<DeployState>) {
    forall k :: 0 <= k < |log| ==> Legal(At(log[..k]), log[k])
  }

  /** The position of an event is the rank of the state it leads to: each state occurs at most once, at a fixed
      place, and a log is never longer than seven. */
  lemma {:induction false} ChainRank(log: seq<DeployState>, k: nat)
    requires Chain(log) && k < |log|
    ensures Rank(Some(log[k])) == k + 1 && Rank(At(log)) == |log| <= 7
    decreases k + |log|
  {
    if k > 0 {
      ChainRank(log, k - 1);
      assert At(log[..k]) == Some(log[k - 1]);
    }
    LegalClimbs(At(log[..k]), log[k]);
    if k < |log| - 1 {
      ChainRankEnd(log, k);
    }
  }

  lemma {:induction false} ChainRankEnd(log: seq<DeployState>, k: nat)
    requires Chain(log) && k < |log| && Rank(Some(log[k])) == k + 1
    ensures Rank(At(log)) == |log| <= 7
    decreases |log| - k
  {
    if k + 1 < |log| {
      assert At(log[..k + 1]) == Some(log[k]);
      LegalClimbs(At(log[..k + 1]), log[k + 1]);
      ChainRankEnd(log, k + 1);
    } else {
      assert Rank(Some(log[k])) <= 7;
    }
  }

  /** A terminal state can only be the last one of its log. */
  lemma TerminalIsLast(log: seq<DeployState>, k: nat)
    requires Chain(log) && k + 1 < |log|
    ensures !Terminal(log[k])
  {
    assert At(log[..k + 1]) == Some(log[k]);
    assert Legal(At(log[..k + 1]), log[k + 1]);
  }

  // Which states a log of either kind passes through.

  predicate IsRollbackState(state: DeployState) {
    state.RollbackApprovalPending? || state.RollbackDeploying? || state.RolledBack? || state.RollbackFailed?
  }

  predicate IsDeployState(state: DeployState) {
    state.ProductionApprovalPending? || state.ProductionDeploying? || state.ProductionHealthy?
    || state.ProductionFailed?
  }

  /** How a mutation ended. */
  predicate IsOutcome(state: DeployState) {
    state.ProductionHealthy? || state.ProductionFailed? || state.RolledBack? || state.RollbackFailed?
  }
}

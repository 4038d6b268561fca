/** The canonical payload that calculate_intent_hash digests. SHA-256 is taken to be injective, so the
    payload itself stands for the hash. */
module IntentHash {
  import opened Wrappers
  import opened UuidText
  import opened CanonicalJson

  datatype Bound = Bound(
    deploymentId: Uuid,
    attemptId: Uuid,
    fencingEpoch: nat,
    repository: string,
    targetSha: string,
    serviceImages: seq<Item>,   // a dict, in insertion order
    artifactDigest: string,
    migrationRevision: Option<string>)

  function FromTarget(b: Bound): string {
    ",\"target_sha\":" + PutString(b.targetSha, "}")
  }

  function FromImages(b: Bound): string {
    ",\"service_images\":" + PutDict(b.serviceImages, FromTarget(b))
  }

  function FromRepository(b: Bound): string {
    "\"repository\":" + PutString(b.repository, FromImages(b))
  }

  function FromEpoch(b: Bound): string {
    ",\"fencing_epoch\":" + (Decimal(b.fencingEpoch) + ("," + FromRepository(b)))
  }

  function FromRevision(b: Bound): string {
    ",\"expected_migration_revision\":" + PutOption(b.migrationRevision, FromEpoch(b))
  }

  function FromAttempt(b: Bound): string {
    ",\"execution_attempt_id\":" + PutString(Print(b.attemptId), FromRevision(b))
  }

  function FromDeployment(b: Bound): string {
    ",\"deployment_id\":" + PutString(Print(b.deploymentId), FromAttempt(b))
  }

  /** json.dumps(..., sort_keys=True, separators=(",", ":")). */
  function Payload(b: Bound): string {
    "{\"artifact_digest\":" + PutString(b.artifactDigest, FromDeployment(b))
  }

  /** Equal as Python values: dicts compare by contents. */
  predicate SameBinding(a: Bound, b: Bound) {
    a.(serviceImages := []) == b.(serviceImages := []) && multiset(a.serviceImages) == multiset(b.serviceImages)
  }

  lemma LaterFieldsCut(a: Bound, b: Bound)
    requires FromRevision(a) == FromRevision(b)
    requires DistinctKeys(a.serviceImages) && DistinctKeys(b.serviceImages)
    ensures a.migrationRevision == b.migrationRevision && a.fencingEpoch == b.fencingEpoch
    ensures a.repository == b.repository && a.targetSha == b.targetSha
    ensures multiset(a.serviceImages) == multiset(b.serviceImages)
  {
    LiteralCut(",\"expected_migration_revision\":",
               PutOption(a.migrationRevision, FromEpoch(a)), PutOption(b.migrationRevision, FromEpoch(b)));
    OptionCut(a.migrationRevision, FromEpoch(a), b.migrationRevision, FromEpoch(b));
    LiteralCut(",\"fencing_epoch\":", Decimal(a.fencingEpoch) + ("," + FromRepository(a)),
               Decimal(b.fencingEpoch) + ("," + FromRepository(b)));
    NumberCut(a.fencingEpoch, FromRepository(a), b.fencingEpoch, FromRepository(b));
    LiteralCut("\"repository\":", PutString(a.repository, FromImages(a)), PutString(b.repository, FromImages(b)));
    StringCut(a.repository, FromImages(a), b.repository, FromImages(b));
    LiteralCut(",\"service_images\":",
               PutDict(a.serviceImages, FromTarget(a)), PutDict(b.serviceImages, FromTarget(b)));
    DictCut(a.serviceImages, FromTarget(a), b.serviceImages, FromTarget(b));
    LiteralCut(",\"target_sha\":", PutString(a.targetSha, "}"), PutString(b.targetSha, "}"));
    StringCut(a.targetSha, "}", b.targetSha, "}");
  }

  lemma PayloadCut(a: Bound, b: Bound)
    requires Payload(a) == Payload(b)
    requires DistinctKeys(a.serviceImages) && DistinctKeys(b.serviceImages)
    ensures SameBinding(a, b)
  {
    LiteralCut("{\"artifact_digest\":",
               PutString(a.artifactDigest, FromDeployment(a)), PutString(b.artifactDigest, FromDeployment(b)));
    StringCut(a.artifactDigest, FromDeployment(a), b.artifactDigest, FromDeployment(b));
    LiteralCut(",\"deployment_id\":",
               PutString(Print(a.deploymentId), FromAttempt(a)), PutString(Print(b.deploymentId), FromAttempt(b)));
    StringCut(Print(a.deploymentId), FromAttempt(a), Print(b.deploymentId), FromAttempt(b));
    PrintInjective(a.deploymentId, b.deploymentId);
    LiteralCut(",\"execution_attempt_id\":",
               PutString(Print(a.attemptId), FromRevision(a)), PutString(Print(b.attemptId), FromRevision(b)));
    StringCut(Print(a.attemptId), FromRevision(a), Print(b.attemptId), FromRevision(b));
    PrintInjective(a.attemptId, b.attemptId);
    LaterFieldsCut(a, b);
  }

  /** The payload binds all eight fields, and nothing else: two attempts have one payload if and only if they
      agree on every field, service maps being compared without regard to the order of their keys. */
  lemma PayloadBindsExactly(a: Bound, b: Bound)
    requires DistinctKeys(a.serviceImages) && DistinctKeys(b.serviceImages)
    ensures Payload(a) == Payload(b) <==> SameBinding(a, b)
  {
    if Payload(a) == Payload(b) {
      PayloadCut(a, b);
    }
    if SameBinding(a, b) {
      assert FromTarget(a) == FromTarget(b);
      InsertionOrderIrrelevant(a.serviceImages, b.serviceImages, FromTarget(a));
      assert FromImages(a) == FromImages(b);
    }
  }
}

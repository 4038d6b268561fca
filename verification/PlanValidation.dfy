/** DockerComposeSupervisorRuntime.validate_plan: an attempt is executed only if it is immutable in itself and compose
    resolves each of its services to exactly its image, without building anything. */
module PlanValidation {
  import opened Wrappers
  import opened HealthContract
  import opened UuidText
  import opened ArtifactPolicy

  /** What compose says of one service. */
  datatype Resolution = Resolution(image: Option<string>, build: bool)

  /** What `docker compose config` came to: nothing, an error, no JSON, or its services. */
  datatype Compose = Unanswered | Refused | NoJson | Resolved(services: map<Service, Resolution>)

  /** The tests before anything is asked of Docker. */
  function ValidateAttempt(attempt: SupervisorAttempt): Result<(), string> {
    if !ValidSha(attempt.targetSha) || !ValidDigest(attempt.artifactDigest) || attempt.serviceImages == map[] then
      Failure("invalid_immutable_attempt")
    else if exists s <- attempt.serviceImages.Keys :: !ImmutableImage(attempt.serviceImages[s]) then
      Failure("mutable_or_invalid_image_reference")
    else if exists s <- attempt.serviceImages.Keys ::
              AfterLastAt(attempt.serviceImages[s]) != Some(attempt.artifactDigest)
    then Failure("staging_digest_mismatch")
    else Success(())
  }

  predicate ResolvesTo(services: map<Service, Resolution>, service: Service, image: string) {
    service in services && services[service].image == Some(image) && !services[service].build
  }

  function ValidatePlan(attempt: SupervisorAttempt, compose: Compose): Result<(), string> {
    var valid := ValidateAttempt(attempt);
    if valid.Failure? then valid
    else
      match compose
      case Unanswered => Failure("runtime")
      case Refused => Failure("compose_resolution_failed")
      case NoJson => Failure("compose_resolution_malformed")
      case Resolved(services) =>
        if forall s <- attempt.serviceImages.Keys :: ResolvesTo(services, s, attempt.serviceImages[s]) then Success(())
        else Failure("resolved_plan_not_immutable")
  }

  predicate HexDigits(s: string) {
    forall c <- s :: '0' <= c <= '9' || 'a' <= c <= 'f'
  }

  /** A reference to exactly this digest: a name, an at sign, the digest, and nothing else. */
  ghost predicate PinsDigest(image: string, digest: string) {
    exists name: string ::
      && name != "" && image == name + "@" + digest
      && ('0' <= name[0] <= '9' || 'a' <= name[0] <= 'z' || 'A' <= name[0] <= 'Z')
      && forall c <- name ::
           '0' <= c <= '9' || 'a' <= c <= 'z' || 'A' <= c <= 'Z' || c in {'.', '_', '/', ':', '-'}
  }

  lemma PinnedIsImmutable(image: string, digest: string)
    requires ValidDigest(digest) && PinsDigest(image, digest)
    ensures ImmutableImage(image) && AfterLastAt(image) == Some(digest)
  {
    var name: string :|
      && name != "" && image == name + "@" + digest
      && ('0' <= name[0] <= '9' || 'a' <= name[0] <= 'z' || 'A' <= name[0] <= 'Z')
      && forall c <- name ::
           '0' <= c <= '9' || 'a' <= c <= 'z' || 'A' <= c <= 'Z' || c in {'.', '_', '/', ':', '-'};
    assert image[|image| - DIGEST_LENGTH..] == digest;
    forall i | 0 <= i < |name| ensures IsNameChar(image[i]) {
      assert image[i] == name[i] && name[i] in name;
    }
    ImageEndsInDigest(image);
  }

  lemma ImmutableIsPinned(image: string, digest: string)
    requires ImmutableImage(image) && AfterLastAt(image) == Some(digest)
    ensures PinsDigest(image, digest)
  {
    ImageEndsInDigest(image);
    var name := image[..|image| - DIGEST_LENGTH - 1];
    assert image == name + "@" + digest;
    assert forall i :: 0 <= i < |name| ==> name[i] == image[i];
  }

  lemma HexDigitsAt(s: string)
    ensures HexDigits(s) <==> forall i :: 0 <= i < |s| ==> IsHexDigit(s[i])
  {
    assert forall i :: 0 <= i < |s| ==> s[i] in s;
    if forall i :: 0 <= i < |s| ==> IsHexDigit(s[i]) {
      forall c <- s ensures '0' <= c <= '9' || 'a' <= c <= 'f' {
        var i :| 0 <= i < |s| && s[i] == c;
      }
    }
  }

  lemma DigestExactly(s: string)
    ensures ValidDigest(s) <==> |s| == 71 && s[..7] == "sha256:" && HexDigits(s[7..])
  {
    if |s| == 71 {
      HexDigitsAt(s[7..]);
      assert forall i :: 7 <= i < 71 ==> s[i] == s[7..][i - 7];
      assert forall i :: 0 <= i < 64 ==> s[7..][i] == s[i + 7];
    }
  }

  /** Which plans are accepted, character by character: the commit is forty hexadecimal digits, the digest sha256: and
      sixty-four, there is a service, every image is a name at that digest, and compose resolved every service to that
      image and builds none. */
  lemma PlanAcceptedExactly(attempt: SupervisorAttempt, compose: Compose)
    ensures ValidatePlan(attempt, compose).Success? <==>
      && |attempt.targetSha| == 40 && HexDigits(attempt.targetSha)
      && |attempt.artifactDigest| == 71 && attempt.artifactDigest[..7] == "sha256:"
      && HexDigits(attempt.artifactDigest[7..])
      && attempt.serviceImages != map[]
      && compose.Resolved?
      && forall s <- attempt.serviceImages.Keys ::
           && PinsDigest(attempt.serviceImages[s], attempt.artifactDigest)
           && s in compose.services && compose.services[s] == Resolution(Some(attempt.serviceImages[s]), false)
  {
    DigestExactly(attempt.artifactDigest);
    HexDigitsAt(attempt.targetSha);
    assert ValidSha(attempt.targetSha) <==> |attempt.targetSha| == 40 && HexDigits(attempt.targetSha);
    if ValidDigest(attempt.artifactDigest) {
      forall s <- attempt.serviceImages.Keys
        ensures PinsDigest(attempt.serviceImages[s], attempt.artifactDigest) <==>
          && ImmutableImage(attempt.serviceImages[s])
          && AfterLastAt(attempt.serviceImages[s]) == Some(attempt.artifactDigest)
      {
        var image := attempt.serviceImages[s];
        if PinsDigest(image, attempt.artifactDigest) {
          PinnedIsImmutable(image, attempt.artifactDigest);
        }
        if ImmutableImage(image) && AfterLastAt(image) == Some(attempt.artifactDigest) {
          ImmutableIsPinned(image, attempt.artifactDigest);
        }
      }
    }
  }
}

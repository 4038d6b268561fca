/** What the policy accepts as commit, digest, immutable image reference, repository, key and service set. */
module ArtifactPolicy {
  import opened HealthContract
  import opened CanonicalJson
  import opened UuidText
  import opened Wrappers

  predicate IsAlphanumeric(c: char) {
    '0' <= c <= '9' || 'a' <= c <= 'z' || 'A' <= c <= 'Z'
  }

  predicate ValidSha(s: string) {
    |s| == 40 && forall i :: 0 <= i < 40 ==> IsHexDigit(s[i])
  }

  const DIGEST_LENGTH := 71

  predicate ValidDigest(s: string) {
    |s| == DIGEST_LENGTH && s[..7] == "sha256:" && forall i :: 7 <= i < DIGEST_LENGTH ==> IsHexDigit(s[i])
  }

  /** FINGERPRINT_PATTERN. */
  predicate ValidFingerprint(s: string) {
    |s| == 64 && forall i :: 0 <= i < 64 ==> IsHexDigit(s[i])
  }

  predicate IsNameChar(c: char) {
    IsAlphanumeric(c) || c in {'.', '_', '/', ':', '-'}
  }

  /** IMMUTABLE_IMAGE_PATTERN: a name, an at sign, a digest. */
  predicate ImmutableImage(s: string) {
    && |s| > DIGEST_LENGTH + 1
    && ValidDigest(s[|s| - DIGEST_LENGTH..])
    && s[|s| - DIGEST_LENGTH - 1] == '@'
    && IsAlphanumeric(s[0])
    && forall i :: 0 <= i < |s| - DIGEST_LENGTH - 1 ==> IsNameChar(s[i])
  }

  /** text.rsplit("@", 1)[1], the part after the last at sign. */
  function AfterLastAt(s: string): Option<string> {
    if s == "" then None
    else
      match AfterLastAt(s[1..])
      case Some(t) => Some(t)
      case None => if s[0] == '@' then Some(s[1..]) else None
  }

  lemma {:induction false} NoAt(s: string)
    requires forall i :: 0 <= i < |s| ==> s[i] != '@'
    ensures AfterLastAt(s).None?
  {
    if s != "" {
      NoAt(s[1..]);
    }
  }

  lemma {:induction false} AfterLastAtSplit(name: string, digest: string)
    requires AfterLastAt(digest).None?
    ensures AfterLastAt(name + "@" + digest) == Some(digest)
  {
    var s := name + "@" + digest;
    if name == "" {
      assert s[1..] == digest;
    } else {
      assert s[1..] == name[1..] + "@" + digest;
      AfterLastAtSplit(name[1..], digest);
    }
  }

  /** For an immutable reference the part after the last at sign is the digest that ends it. */
  lemma ImageEndsInDigest(s: string)
    requires ImmutableImage(s)
    ensures AfterLastAt(s) == Some(s[|s| - DIGEST_LENGTH..])
    ensures ValidDigest(s[|s| - DIGEST_LENGTH..])
  {
    var n := |s| - DIGEST_LENGTH;
    var digest := s[n..];
    forall i | 0 <= i < |digest| ensures digest[i] != '@' {
      if i < 7 {
        assert digest[i] == digest[..7][i] == "sha256:"[i];
      } else {
        assert IsHexDigit(digest[i]);
      }
    }
    NoAt(digest);
    AfterLastAtSplit(s[..n - 1], digest);
    assert s == s[..n - 1] + "@" + digest;
  }

  /** validate_immutable_artifact. */
  predicate ImmutableArtifact(digest: string, image: string) {
    ValidDigest(digest) && ImmutableImage(image) && AfterLastAt(image) == Some(digest)
  }

  predicate IsWordChar(c: char) {
    IsAlphanumeric(c) || c in {'_', '.', '-'}
  }

  predicate IsRepositoryPart(s: string) {
    1 <= |s| <= 100 && IsAlphanumeric(s[0]) && forall i :: 0 <= i < |s| ==> IsWordChar(s[i])
  }

  /** REPOSITORY_PATTERN without the .git ending: an owner, a slash, a name. */
  predicate ValidRepository(s: string) {
    && !(|s| >= 4 && s[|s| - 4..] == ".git")
    && exists slash ::
      0 <= slash < |s| && s[slash] == '/' && IsRepositoryPart(s[..slash]) && IsRepositoryPart(s[slash + 1..])
  }

  predicate ValidKey(s: string) {
    1 <= |s| <= 200 && forall i :: 0 <= i < |s| ==> IsWordChar(s[i]) || s[i] == ':'
  }

  predicate Word(s: string, more: set<char>) {
    forall c <- s :: '0' <= c <= '9' || 'a' <= c <= 'z' || 'A' <= c <= 'Z' || c in more
  }

  lemma WordAt(s: string, more: set<char>)
    ensures Word(s, more) <==> forall i :: 0 <= i < |s| ==> IsAlphanumeric(s[i]) || s[i] in more
  {
    assert forall i :: 0 <= i < |s| ==> s[i] in s;
    if forall i :: 0 <= i < |s| ==> IsAlphanumeric(s[i]) || s[i] in more {
      forall c <- s ensures IsAlphanumeric(c) || c in more {
        var i :| 0 <= i < |s| && s[i] == c;
      }
    }
  }

  /** Character by character, which texts are idempotency keys, parts of a repository name, and repositories. */
  lemma KeysExactly(s: string)
    ensures ValidKey(s) <==> 1 <= |s| <= 200 && Word(s, {'_', '.', '-', ':'})
  {
    WordAt(s, {'_', '.', '-', ':'});
  }

  predicate Named(s: string) {
    && 1 <= |s| <= 100 && Word(s, {'_', '.', '-'})
    && ('0' <= s[0] <= '9' || 'a' <= s[0] <= 'z' || 'A' <= s[0] <= 'Z')
  }

  lemma PartsExactly(s: string)
    ensures IsRepositoryPart(s) <==> Named(s)
  {
    WordAt(s, {'_', '.', '-'});
  }

  ghost predicate EndsIn(s: string, ending: string) {
    exists stem: string :: s == stem + ending
  }

  lemma EndsInExactly(s: string, ending: string)
    ensures EndsIn(s, ending) <==> |s| >= |ending| && s[|s| - |ending|..] == ending
  {
    if |s| >= |ending| && s[|s| - |ending|..] == ending {
      assert s == s[..|s| - |ending|] + ending;
    }
    if stem: string :| s == stem + ending {
      assert s[|s| - |ending|..] == ending;
    }
  }

  ghost predicate OwnerAndName(s: string) {
    exists owner: string, name: string :: s == owner + "/" + name && Named(owner) && Named(name)
  }

  lemma SlashSplits(s: string, slash: nat)
    requires slash < |s| && s[slash] == '/' && IsRepositoryPart(s[..slash]) && IsRepositoryPart(s[slash + 1..])
    ensures OwnerAndName(s)
  {
    PartsExactly(s[..slash]);
    PartsExactly(s[slash + 1..]);
    assert s == s[..slash] + "/" + s[slash + 1..];
  }

  lemma SplitHasSlash(s: string)
    requires OwnerAndName(s)
    ensures exists slash ::
      0 <= slash < |s| && s[slash] == '/' && IsRepositoryPart(s[..slash]) && IsRepositoryPart(s[slash + 1..])
  {
    var owner: string, name: string :| s == owner + "/" + name && Named(owner) && Named(name);
    PartsExactly(owner);
    PartsExactly(name);
    var slash := |owner|;
    assert s[..slash] == owner && s[slash + 1..] == name && s[slash] == '/';
  }

  lemma RepositoriesExactly(s: string)
    ensures ValidRepository(s) <==> OwnerAndName(s) && !EndsIn(s, ".git")
  {
    EndsInExactly(s, ".git");
    if slash :| 0 <= slash < |s| && s[slash] == '/' && IsRepositoryPart(s[..slash]) && IsRepositoryPart(s[slash + 1..])
    {
      SlashSplits(s, slash);
    }
    if OwnerAndName(s) {
      SplitHasSlash(s);
    }
  }

  /** validate_service_set: non-empty, without duplicates, approved names only. */
  predicate ValidServices(services: seq<Service>) {
    && services != []
    && (forall i, j :: 0 <= i < j < |services| ==> services[i] != services[j])
    && forall s <- services :: !s.Unapproved?
  }

  function ServiceName(s: Service): string {
    match s
    case Api => "api"
    case FeishuWorker => "feishu-worker"
    case Unapproved(name) => name
  }

  /** `items` lists the entries of a service map in some order, as a dict that came out of the database does. */
  ghost predicate Lists(items: seq<Item>, images: map<Service, string>) {
    && DistinctKeys(items)
    && (forall s <- images.Keys :: Item(ServiceName(s), images[s]) in items)
    && forall item <- items :: exists s <- images.Keys :: item == Item(ServiceName(s), images[s])
  }

  lemma {:induction false} OnceEach(items: seq<Item>, item: Item)
    requires DistinctKeys(items)
    ensures multiset(items)[item] == if item in items then 1 else 0
  {
    if items != [] {
      assert items == [items[0]] + items[1..];
      OnceEach(items[1..], item);
      if items[0] == item {
        assert forall i :: 0 < i < |items| ==> items[i].key != item.key;
        assert item !in items[1..];
      }
    }
  }

  /** Two listings of one map differ in order only. */
  lemma ListingsPermute(a: seq<Item>, b: seq<Item>, images: map<Service, string>)
    requires Lists(a, images) && Lists(b, images)
    ensures multiset(a) == multiset(b)
  {
    forall item ensures multiset(a)[item] == multiset(b)[item] {
      OnceEach(a, item);
      OnceEach(b, item);
    }
  }
}

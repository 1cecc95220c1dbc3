/** The fallback chains by which cloudknot resolves its account settings.
    `Store` is the `[aws]` section of cloudknot's own config file; a getter
    consults it first and, on a miss, falls back to the host and writes the
    value it found back into the store. */
module Resolver {
  import opened Wrappers
  import opened Text
  import opened AwsFiles

  /** The `[aws]` section of the cloudknot config file: option -> value. */
  type Store = map<string, string>

  const RegionKey := "region"
  const ProfileKey := "profile"
  const EcrRepoKey := "ecr-repo"
  const BucketKey := "s3-bucket"
  const PolicyKey := "s3-bucket-policy"
  const SseKey := "s3-sse"
  const ConfiguredKey := "configured"

  const RegionVar := "AWS_DEFAULT_REGION"
  const ProfileVar := "AWS_PROFILE"
  const EcrRepoVar := "CLOUDKNOT_ECR_REPO"
  const BucketVar := "CLOUDKNOT_S3_BUCKET"

  const FallbackRegion := "us-east-1"
  const FallbackEcrRepo := "cloudknot"
  const DefaultProfile := "default"

  /** Where `get_region` looks once the store has no region:
      AWS_DEFAULT_REGION, then `[default] region` of `~/.aws/config`,
      then `us-east-1`. */
  function RegionFromHost(host: Host): (region: string)
    ensures RegionVar in host.env ==> region == host.env[RegionVar]
    ensures RegionVar !in host.env ==> region == AwsConfigDefaultRegion(host)
  {
    EnvOr(host, RegionVar, AwsConfigDefaultRegion(host))
  }

  /** The value `get_region` returns. */
  function ResolveRegion(store: Store, host: Host): string {
    if RegionKey in store then store[RegionKey] else RegionFromHost(host)
  }

  /** Where `get_profile` looks once the store has no profile: AWS_PROFILE,
      then `default` if `list_profiles` names it. `Ok(None)` means neither
      gave a profile; an error is the one `list_profiles` raised. */
  function ProfileFromHost(host: Host): (r: Result<Option<string>>)
    ensures ProfileVar in host.env ==> r == Ok(Some(host.env[ProfileVar]))
    ensures r.Err? ==> ProfileVar !in host.env && ListProfiles(host).Err?
    ensures ProfileVar !in host.env && ListProfiles(host).Err? ==> r == Err(ListProfiles(host).error)
    ensures ProfileVar !in host.env && ListProfiles(host).Ok? ==>
              r == Ok(if DefaultProfile in ListProfiles(host).value.names then Some(DefaultProfile) else None)
  {
    if ProfileVar in host.env then Ok(Some(host.env[ProfileVar]))
    else
      match ListProfiles(host)
      case Err(e) => Err(e)
      case Ok(info) => Ok(if DefaultProfile in info.names then Some(DefaultProfile) else None)
  }

  /** The value `get_profile(fallback)` returns. */
  function ResolveProfile(store: Store, host: Host, fallback: Option<string>): (r: Result<Option<string>>)
    ensures r.Ok? && r.value.None? ==> fallback.None?
    ensures r.Err? <==> ProfileKey !in store && ProfileVar !in host.env && ListProfiles(host).Err?
  {
    if ProfileKey in store then Ok(Some(store[ProfileKey]))
    else
      match ProfileFromHost(host)
      case Err(e) => Err(e)
      case Ok(Some(p)) => Ok(Some(p))
      case Ok(None) => Ok(fallback)
  }

  /** The store after `get_profile`: a profile found on the host is written
      back; the caller's fallback never is. */
  function StoreAfterGetProfile(store: Store, host: Host): (s: Store)
    ensures s.Keys <= store.Keys + {ProfileKey}
    ensures forall k :: k in store ==> k in s && s[k] == store[k]
  {
    if ProfileKey !in store && ProfileFromHost(host).Ok? && ProfileFromHost(host).value.Some? then
      store[ProfileKey := ProfileFromHost(host).value.value]
    else store
  }

  /** The profile the clients were bound with, as the store records it:
      `get_profile(fallback=None)` answers `None` exactly when no profile is
      stored and none was found on the host. */
  function StoredProfile(store: Store): Option<string> {
    if ProfileKey in store then Some(store[ProfileKey]) else None
  }

  /** The value `get_ecr_repo` returns. */
  function ResolveEcrRepo(store: Store, host: Host): string {
    if EcrRepoKey in store then store[EcrRepoKey] else EnvOr(host, EcrRepoVar, FallbackEcrRepo)
  }

  /** The bucket name cloudknot generates when none is configured:
      `'cloudknot-' + getpass.getuser().lower() + '-' + str(uuid.uuid4())`. */
  function GeneratedBucket(user: string, uuid: string): (b: string)
    ensures |b| == 11 + |user| + |uuid|
    ensures b[..10] == "cloudknot-" && b[10..10 + |user|] == Lower(user)
    ensures b[10 + |user|] == '-' && b[11 + |user|..] == uuid
  {
    "cloudknot-" + Lower(user) + "-" + uuid
  }

  /** The bucket name `get_s3_params` settles on. */
  function ResolveBucket(store: Store, host: Host, user: string, uuid: string): string {
    if BucketKey in store then store[BucketKey] else EnvOr(host, BucketVar, GeneratedBucket(user, uuid))
  }

  /** The guard of every resource object: `configured == 'True'` in the store. */
  predicate IsConfigured(store: Store) {
    ConfiguredKey in store && store[ConfiguredKey] == "True"
  }

  /** Writing back the resolved region makes `get_region` answer from the
      store from then on, whatever the host says later. */
  lemma RegionWriteBackIdempotent(store: Store, host: Host, later: Host)
    ensures var r := ResolveRegion(store, host);
            ResolveRegion(store[RegionKey := r], later) == r
  {
  }

  /** A stored region hides every host source: the environment and the AWS
      config file are not consulted. */
  lemma RegionStoreFirst(store: Store, host: Host, other: Host)
    requires RegionKey in store
    ensures ResolveRegion(store, host) == ResolveRegion(store, other) == store[RegionKey]
  {
  }

  /** Without a stored region, AWS_DEFAULT_REGION wins over the AWS config
      file, and `us-east-1` is used only when both are silent. */
  lemma RegionHostOrder(store: Store, host: Host)
    requires RegionKey !in store
    ensures RegionVar in host.env ==> ResolveRegion(store, host) == host.env[RegionVar]
    ensures var path := AwsDirFile(host, "config");
            RegionVar !in host.env && path in host.files && IniGet(host.files[path], "default", "region").Some? ==>
              ResolveRegion(store, host) == IniGet(host.files[path], "default", "region").value
    ensures var path := AwsDirFile(host, "config");
            RegionVar !in host.env && (path !in host.files || IniGet(host.files[path], "default", "region").None?) ==>
              ResolveRegion(store, host) == FallbackRegion
  {
  }

  /** The profile chain: the store, then AWS_PROFILE, then `default` when
      `list_profiles` names it, then the caller's fallback; a failing
      `list_profiles` is the only error, and only once the first two are
      silent. */
  lemma ProfileOrder(store: Store, host: Host, fallback: Option<string>)
    ensures ProfileKey in store ==> ResolveProfile(store, host, fallback) == Ok(Some(store[ProfileKey]))
    ensures ProfileKey !in store && ProfileVar in host.env ==>
              ResolveProfile(store, host, fallback) == Ok(Some(host.env[ProfileVar]))
    ensures ProfileKey !in store && ProfileVar !in host.env && ListProfiles(host).Ok? ==>
              ResolveProfile(store, host, fallback)
                == Ok(if DefaultProfile in ListProfiles(host).value.names then Some(DefaultProfile) else fallback)
    ensures ProfileKey !in store && ProfileVar !in host.env && ListProfiles(host).Err? ==>
              ResolveProfile(store, host, fallback) == Err(IndexError)
  {
  }

  /** `get_profile` is idempotent: calling it again on the store it left
      gives the same answer and writes nothing more. */
  lemma ProfileWriteBackIdempotent(store: Store, host: Host, fallback: Option<string>)
    ensures var after := StoreAfterGetProfile(store, host);
            && ResolveProfile(after, host, fallback) == ResolveProfile(store, host, fallback)
            && StoreAfterGetProfile(after, host) == after
  {
  }

  /** When `get_profile` answers with the caller's fallback, it wrote nothing;
      and whatever it writes is exactly what it answered. */
  lemma ProfileFallbackNotPersisted(store: Store, host: Host, fallback: Option<string>)
    ensures ProfileKey !in store && ProfileFromHost(host) == Ok(None) ==>
              ResolveProfile(store, host, fallback) == Ok(fallback)
              && StoreAfterGetProfile(store, host) == store
    ensures StoreAfterGetProfile(store, host) != store ==>
              ResolveProfile(store, host, fallback) == Ok(Some(StoreAfterGetProfile(store, host)[ProfileKey]))
    ensures StoreAfterGetProfile(store, host).Keys <= store.Keys + {ProfileKey}
  {
  }

  /** `get_profile(fallback=None)` answers exactly the profile recorded in
      the store it leaves behind. */
  lemma ProfileAnswerIsStored(store: Store, host: Host)
    requires ResolveProfile(store, host, None).Ok?
    ensures ResolveProfile(store, host, None).value == StoredProfile(StoreAfterGetProfile(store, host))
  {
  }

  /** `get_ecr_repo` after its write-back answers from the store. */
  lemma EcrRepoWriteBackIdempotent(store: Store, host: Host, later: Host)
    ensures var r := ResolveEcrRepo(store, host);
            ResolveEcrRepo(store[EcrRepoKey := r], later) == r
  {
  }

  /** The ECR repository chain: store, then CLOUDKNOT_ECR_REPO, then `cloudknot`. */
  lemma EcrRepoOrder(store: Store, host: Host)
    ensures EcrRepoKey in store ==> ResolveEcrRepo(store, host) == store[EcrRepoKey]
    ensures EcrRepoKey !in store && EcrRepoVar in host.env ==> ResolveEcrRepo(store, host) == host.env[EcrRepoVar]
    ensures EcrRepoKey !in store && EcrRepoVar !in host.env ==> ResolveEcrRepo(store, host) == FallbackEcrRepo
  {
  }
}

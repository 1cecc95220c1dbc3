/** The process-wide state of cloudknot's AWS base layer and the operations
    that read and change it: the `[aws]` section of the cloudknot config
    file, the module-level `clients` dictionary, and the ECR repositories and
    other remote effects the setters cause. */
module Account {
  import opened Wrappers
  import opened AwsFiles
  import opened Resolver
  import opened PolicyDocument
  import opened Provider
  import opened S3Params

  /** What a boto3 client is bound to: its region, the profile of its
      session (`None` is boto3's default chain) and its connection pool size. */
  datatype Binding = Binding(region: string, profile: Option<string>, maxPool: nat)

  /** botocore's default `max_pool_connections`. */
  const DefaultMaxPool: nat := 10

  /** What `get_s3_params` returns. */
  datatype BucketInfo = BucketInfo(bucket: string, policy: string, sse: Option<string>)

  /** The six entries of `clients`, all bound alike. */
  function Uniform(b: Binding): (m: map<Service, Binding>)
    ensures m.Keys == AllServices
    ensures forall s :: s in m ==> m[s] == b
  {
    map s | s in AllServices :: b
  }

  /** The check `set_profile` makes first: the profile must be one that
      `list_profiles` names. */
  function ProfileListed(host: Host, name: string): (r: Result<()>)
    ensures r.Ok? <==> ListProfiles(host).Ok? && name in ListProfiles(host).value.names
    ensures ListProfiles(host).Err? ==> r == Err(IndexError)
    ensures ListProfiles(host).Ok? && name !in ListProfiles(host).value.names ==> r == Err(InputError)
  {
    match ListProfiles(host)
    case Err(e) => Err(e)
    case Ok(info) => if name in info.names then Ok(()) else Err(InputError)
  }

  /** The policy name `get_s3_params` finds in the store, if any. */
  function StoredPolicy(store: Store): Option<string> {
    if PolicyKey in store then Some(store[PolicyKey]) else None
  }

  /** The `sse` `get_s3_params` finds in the store: an absent option is
      None, a stored one must be one of the three accepted strings. */
  function StoredSse(store: Store): (r: Result<Option<string>>)
    ensures r.Err? <==> SseKey in store && store[SseKey] !in {SseAes, SseKms, "None"}
    ensures r.Err? ==> r.error == InputError
    ensures r.Ok? ==> ValidSse(r.value)
    ensures r.Ok? && SseKey in store ==> SseText(r.value) == store[SseKey]
    ensures SseKey !in store ==> r == Ok(None)
  {
    if SseKey in store then
      StoredSseCanonical(store[SseKey]);
      ParseStoredSse(store[SseKey])
    else Ok(None)
  }

  /** The requests `get_s3_params` makes before it reads `sse`: a bucket
      name that is not stored, with a policy that is, makes the policy
      point at the new bucket through `update_s3_policy`; otherwise nothing. */
  function RepointPolicy(store: Store, bucket: string, iam: IamReplies): (a: Attempt<()>)
    ensures BucketKey in store || PolicyKey !in store ==> a == Attempt([], Ok(()))
    ensures BucketKey !in store && PolicyKey in store ==> a == UpdateS3Policy(store[PolicyKey], bucket, iam)
  {
    if BucketKey !in store && PolicyKey in store then UpdateS3Policy(store[PolicyKey], bucket, iam)
    else Attempt([], Ok(()))
  }

  class Cloudknot {
    /** the `[aws]` section of the cloudknot config file */
    var aws: Store
    /** the module-level `clients` dictionary */
    var clients: map<Service, Binding>
    /** the ECR repositories that exist, as (region, name) */
    var repositories: set<(string, string)>
    /** the state-changing requests sent to AWS so far, in order */
    var calls: seq<RemoteCall>
    /** environment variables, home directory and AWS ini files */
    const host: Host
    /** the answer of `describe_regions` */
    const regions: seq<string>

    /** `clients` has its six entries. */
    predicate Registered()
      reads this
    {
      clients.Keys == AllServices
    }

    /** The clients agree with the config file: every entry is bound to the
        stored region and to the profile `get_profile(fallback=None)` gives,
        and all share one pool size. */
    predicate Consistent()
      reads this
    {
      && Registered()
      && RegionKey in aws
      && (forall s :: s in clients ==> clients[s] == Binding(aws[RegionKey], StoredProfile(aws), clients[Iam].maxPool))
      && (ProfileKey !in aws ==> ProfileFromHost(host) == Ok(None))
    }

    /** Importing `cloudknot.aws.base_classes`: each of the six dictionary
        entries asks `get_profile(fallback=None)` and then `get_region()`;
        after the first entry both answer from what the first wrote, so
        all six are bound alike. The import fails when `get_profile` does. */
    constructor (store: Store, host: Host, regions: seq<string>, repositories: set<(string, string)>)
      requires ResolveProfile(store, host, None).Ok?
      ensures this.host == host && this.regions == regions
      ensures this.repositories == repositories && calls == []
      ensures aws == StoreAfterGetProfile(store, host)[RegionKey := ResolveRegion(StoreAfterGetProfile(store, host), host)]
      ensures clients == Uniform(Binding(aws[RegionKey], ResolveProfile(store, host, None).value, DefaultMaxPool))
      ensures Consistent()
    {
      var profile := ResolveProfile(store, host, None).value;
      var afterProfile := StoreAfterGetProfile(store, host);
      ProfileAnswerIsStored(store, host);
      var region := ResolveRegion(afterProfile, host);
      this.host := host;
      this.regions := regions;
      this.repositories := repositories;
      calls := [];
      aws := afterProfile[RegionKey := region];
      clients := Uniform(Binding(region, profile, DefaultMaxPool));
      new;
      assert StoredProfile(aws) == StoredProfile(afterProfile);
    }

    /** Python's `get_region()`: the stored region, else the host's, which
        is then written to the config file. */
    method GetRegion() returns (region: string)
      modifies this
      ensures region == ResolveRegion(old(aws), host)
      ensures aws == old(aws)[RegionKey := region]
      ensures clients == old(clients) && repositories == old(repositories) && calls == old(calls)
      ensures old(Consistent()) ==> aws == old(aws) && Consistent()
    {
      if RegionKey in aws {
        region := aws[RegionKey];
      } else {
        region := RegionFromHost(host);
        aws := aws[RegionKey := region];
      }
    }

    /** Python's `get_profile(fallback='from-env')`: the stored profile, else
        AWS_PROFILE, else `default` if it is listed (either is written to the
        config file), else `fallback`, which is not written. */
    method GetProfile(fallback: Option<string> := Some("from-env")) returns (r: Result<Option<string>>)
      modifies this
      ensures r == ResolveProfile(old(aws), host, fallback)
      ensures aws == StoreAfterGetProfile(old(aws), host)
      ensures clients == old(clients) && repositories == old(repositories) && calls == old(calls)
      ensures old(Consistent()) ==> r.Ok? && aws == old(aws) && Consistent()
    {
      if ProfileKey in aws {
        return Ok(Some(aws[ProfileKey]));
      }
      var found := ProfileFromHost(host);
      match found {
        case Err(e) =>
          r := Err(e);
        case Ok(None) =>
          r := Ok(fallback);
        case Ok(Some(p)) =>
          aws := aws[ProfileKey := p];
          r := Ok(Some(p));
      }
    }

    /** Python's `set_region(region='us-east-1')`. A region AWS does not list
        is refused with nothing changed. Otherwise the region is written,
        then `get_profile(fallback=None)` chooses the session profile (an
        error there leaves the clients as they were), and all six clients
        are rebuilt in the new region with the IAM client's pool size. */
    method SetRegion(region: string := "us-east-1") returns (r: Result<()>)
      requires Registered()
      modifies this
      ensures region !in regions ==>
                r == Err(InputError) && aws == old(aws) && clients == old(clients)
      ensures region in regions ==>
                aws == StoreAfterGetProfile(old(aws)[RegionKey := region], host)
      ensures r.Ok? <==> region in regions && ResolveProfile(old(aws)[RegionKey := region], host, None).Ok?
      ensures r.Err? ==> clients == old(clients)
      ensures r.Ok? ==> clients == Uniform(Binding(region, StoredProfile(aws), old(clients)[Iam].maxPool))
      ensures r.Ok? ==> Consistent() && aws[RegionKey] == region
      ensures old(Consistent()) ==> (r.Ok? <==> region in regions) && Consistent()
      ensures repositories == old(repositories) && calls == old(calls)
    {
      if region !in regions {
        return Err(InputError);
      }
      aws := aws[RegionKey := region];
      var maxPool := clients[Iam].maxPool;
      ghost var written := aws;
      var profile := GetProfile(None);
      if profile.Err? {
        return Err(profile.error);
      }
      ProfileAnswerIsStored(written, host);
      clients := Uniform(Binding(region, profile.value, maxPool));
      r := Ok(());
    }

    /** The six assignments that `set_profile` and `refresh_clients` share:
        each entry gets a new session client for `profile` with `maxPool`
        connections, in the region `get_region()` gives it; the first call
        writes the region back, so the other five see the same one. */
    method RebuildClients(profile: Option<string>, maxPool: nat)
      modifies this
      ensures aws == old(aws)[RegionKey := ResolveRegion(old(aws), host)]
      ensures clients == Uniform(Binding(ResolveRegion(old(aws), host), profile, maxPool))
      ensures repositories == old(repositories) && calls == old(calls)
    {
      var iamRegion := GetRegion();
      ghost var settled := aws;
      var ec2Region := GetRegion();
      assert ec2Region == iamRegion && aws == settled;
      var batchRegion := GetRegion();
      assert batchRegion == iamRegion && aws == settled;
      var ecrRegion := GetRegion();
      assert ecrRegion == iamRegion && aws == settled;
      var ecsRegion := GetRegion();
      assert ecsRegion == iamRegion && aws == settled;
      var s3Region := GetRegion();
      assert s3Region == iamRegion && aws == settled;
      clients := map[Iam := Binding(iamRegion, profile, maxPool),
                     Ec2 := Binding(ec2Region, profile, maxPool),
                     Batch := Binding(batchRegion, profile, maxPool),
                     Ecr := Binding(ecrRegion, profile, maxPool),
                     Ecs := Binding(ecsRegion, profile, maxPool),
                     S3 := Binding(s3Region, profile, maxPool)];
      assert clients == Uniform(Binding(iamRegion, profile, maxPool));
    }

    /** The second half of `set_profile`, once the name is known to be
        listed: write it, then rebuild the six clients with it. */
    method CommitProfile(name: string)
      requires Registered()
      modifies this
      ensures aws == old(aws)[ProfileKey := name][RegionKey := ResolveRegion(old(aws), host)]
      ensures clients == Uniform(Binding(ResolveRegion(old(aws), host), Some(name), old(clients)[Iam].maxPool))
      ensures Consistent()
      ensures repositories == old(repositories) && calls == old(calls)
    {
      aws := aws[ProfileKey := name];
      assert RegionKey != ProfileKey by { assert RegionKey[0] != ProfileKey[0]; }
      assert ResolveRegion(aws, host) == ResolveRegion(old(aws), host);
      var maxPool := clients[Iam].maxPool;
      RebuildClients(Some(name), maxPool);
      assert StoredProfile(aws) == Some(name);
    }

    /** Python's `set_profile(profile_name)`. A profile `list_profiles` does
        not name is refused with nothing changed; otherwise it is written
        and the six clients are rebuilt with that profile, each asking
        `get_region()` for its region. */
    method SetProfile(name: string) returns (r: Result<()>)
      requires Registered()
      modifies this
      ensures r == ProfileListed(host, name)
      ensures r.Err? ==> aws == old(aws) && clients == old(clients)
      ensures r.Ok? ==> aws == old(aws)[ProfileKey := name][RegionKey := ResolveRegion(old(aws), host)]
      ensures r.Ok? ==> clients == Uniform(Binding(ResolveRegion(old(aws), host), Some(name), old(clients)[Iam].maxPool))
      ensures r.Ok? ==> Consistent()
      ensures repositories == old(repositories) && calls == old(calls)
    {
      r := ProfileListed(host, name);
      if r.Err? {
        return;
      }
      CommitProfile(name);
    }

    /** Python's `refresh_clients(max_pool=10)`: rebuild the six clients
        with the given pool size, the profile `get_profile(fallback=None)`
        gives and the region `get_region()` gives each of them. */
    method RefreshClients(maxPool: nat := 10) returns (r: Result<()>)
      modifies this
      ensures r.Ok? <==> ResolveProfile(old(aws), host, None).Ok?
      ensures r.Err? ==> aws == old(aws) && clients == old(clients)
      ensures r.Ok? ==> aws == StoreAfterGetProfile(old(aws), host)[RegionKey := ResolveRegion(old(aws), host)]
      ensures r.Ok? ==> clients == Uniform(Binding(ResolveRegion(old(aws), host), StoredProfile(aws), maxPool))
      ensures r.Ok? ==> Consistent()
      ensures old(Consistent()) ==> r.Ok? && Consistent()
      ensures repositories == old(repositories) && calls == old(calls)
    {
      ghost var before := aws;
      var profile := GetProfile(None);
      if profile.Err? {
        return Err(profile.error);
      }
      ProfileAnswerIsStored(before, host);
      RebuildClients(profile.value, maxPool);
      r := Ok(());
    }

    /** Python's `set_ecr_repo(repo)`: write the name, then create the
        repository in the ECR client's region unless it already exists. */
    method SetEcrRepo(repo: string)
      requires Registered()
      modifies this
      ensures clients == old(clients)
      ensures aws == old(aws)[EcrRepoKey := repo]
      ensures repositories == old(repositories) + {(clients[Ecr].region, repo)}
      ensures calls == old(calls) + (if (clients[Ecr].region, repo) in old(repositories) then []
                                     else [CreateRepository(clients[Ecr].region, repo)])
      ensures old(Consistent()) ==> Consistent()
    {
      aws := aws[EcrRepoKey := repo];
      var region := clients[Ecr].region;
      if (region, repo) !in repositories {
        repositories := repositories + {(region, repo)};
        calls := calls + [CreateRepository(region, repo)];
      }
    }

    /** Python's `get_ecr_repo()`: resolve the name and hand it to
        `set_ecr_repo`, which records it and makes sure it exists. */
    method GetEcrRepo() returns (repo: string)
      requires Registered()
      modifies this
      ensures clients == old(clients)
      ensures repo == ResolveEcrRepo(old(aws), host)
      ensures aws == old(aws)[EcrRepoKey := repo]
      ensures (clients[Ecr].region, repo) in repositories
      ensures repositories == old(repositories) + {(clients[Ecr].region, repo)}
      ensures calls == old(calls) + (if (clients[Ecr].region, repo) in old(repositories) then []
                                     else [CreateRepository(clients[Ecr].region, repo)])
      ensures old(Consistent()) ==> Consistent()
    {
      repo := ResolveEcrRepo(aws, host);
      SetEcrRepo(repo);
    }

    /** Python's `set_s3_params(bucket, policy=None, sse=None)`. An `sse`
        other than None, AES256 or aws:kms is refused with nothing changed.
        Otherwise the config file is read, the bucket is created in the
        region `get_region()` gives, the access policy is created (under a
        fresh name when none is given), and the file is overwritten with the
        copy read at the start plus the bucket, the policy name and `sse`.
        That copy predates `get_region()`, so a region it wrote back is
        dropped again; an error before the final write leaves only that
        write-back. */
    method SetS3Params(bucket: string, policy: Option<string>, sse: Option<string>,
                       s3: S3Replies, policyReply: IamReply, policyUuid: string)
      returns (r: Result<()>)
      modifies this
      ensures !ValidSse(sse) ==> r == Err(InputError) && aws == old(aws) && calls == old(calls)
      ensures ValidSse(sse) ==>
                var region := ResolveRegion(old(aws), host);
                var created := CreateBucketFlow(bucket, region, sse, s3);
                var name := if policy.Some? then policy.value else GeneratedPolicyName(policyUuid);
                var registered := CreatePolicyFlow(name, bucket, policyReply);
                && (r.Ok? <==> created.result.Ok? && registered.result.Ok?)
                && (created.result.Err? ==>
                      r == created.result && calls == old(calls) + created.calls
                      && aws == old(aws)[RegionKey := region])
                && (created.result.Ok? ==> calls == old(calls) + created.calls + registered.calls)
                && (created.result.Ok? && registered.result.Err? ==>
                      r == registered.result && aws == old(aws)[RegionKey := region])
                && (r.Ok? ==> aws == old(aws)[BucketKey := bucket][PolicyKey := name][SseKey := SseText(sse)])
      ensures clients == old(clients) && repositories == old(repositories)
      ensures old(Consistent()) ==> Consistent()
    {
      if !ValidSse(sse) {
        return Err(InputError);
      }
      var snapshot := aws[BucketKey := bucket];
      var region := GetRegion();
      var created := CreateBucketFlow(bucket, region, sse, s3);
      calls := calls + created.calls;
      if created.result.Err? {
        return created.result;
      }
      var name := if policy.Some? then policy.value else GeneratedPolicyName(policyUuid);
      var registered := CreatePolicyFlow(name, bucket, policyReply);
      calls := calls + registered.calls;
      if registered.result.Err? {
        return registered.result;
      }
      aws := snapshot[PolicyKey := name][SseKey := SseText(sse)];
      r := Ok(());
    }

    /** Python's `get_s3_params()`: the stored policy name (or none yet);
        the stored bucket, else CLOUDKNOT_S3_BUCKET, else a generated name,
        and for a new bucket an existing policy is pointed at it with
        `update_s3_policy`; the stored `sse`, which must be AES256, aws:kms
        or None. All three go through `set_s3_params`, and a policy name it
        generated is read back from the config file. */
    method GetS3Params(user: string, bucketUuid: string, policyUuid: string,
                       iam: IamReplies, s3: S3Replies)
      returns (r: Result<BucketInfo>)
      modifies this
      ensures var bucket := ResolveBucket(old(aws), host, user, bucketUuid);
              var updated := RepointPolicy(old(aws), bucket, iam);
              var sse := StoredSse(old(aws));
              && (updated.result.Err? ==>
                    r == Err(updated.result.error) && aws == old(aws) && calls == old(calls) + updated.calls)
              && (updated.result.Ok? && sse.Err? ==>
                    r == Err(InputError) && aws == old(aws) && calls == old(calls) + updated.calls)
              && (updated.result.Ok? && sse.Ok? ==>
                    var name := if PolicyKey in old(aws) then old(aws)[PolicyKey] else GeneratedPolicyName(policyUuid);
                    var created := CreateBucketFlow(bucket, ResolveRegion(old(aws), host), sse.value, s3);
                    var registered := CreatePolicyFlow(name, bucket, iam.createPolicy);
                    && (r.Ok? <==> created.result.Ok? && registered.result.Ok?)
                    && calls == old(calls) + updated.calls + created.calls
                                + (if created.result.Ok? then registered.calls else [])
                    && (r.Err? ==> aws == old(aws)[RegionKey := ResolveRegion(old(aws), host)])
                    && (created.result.Err? ==> r == Err(created.result.error))
                    && (created.result.Ok? && registered.result.Err? ==> r == Err(registered.result.error))
                    && (r.Ok? ==> r.value == BucketInfo(bucket, name, sse.value)
                                  && aws == old(aws)[BucketKey := bucket][PolicyKey := name][SseKey := SseText(sse.value)]))
      ensures r.Ok? ==> ParseStoredSse(aws[SseKey]) == Ok(r.value.sse)
      ensures clients == old(clients) && repositories == old(repositories)
      ensures old(Consistent()) ==> Consistent()
    {
      var bucket := ResolveBucket(aws, host, user, bucketUuid);
      var updated := RepointPolicy(aws, bucket, iam);
      calls := calls + updated.calls;
      if updated.result.Err? {
        return Err(updated.result.error);
      }
      var sse := StoredSse(aws);
      if sse.Err? {
        return Err(sse.error);
      }
      r := StoreS3Params(bucket, StoredPolicy(aws), sse.value, s3, iam.createPolicy, policyUuid);
    }

    /** The end of `get_s3_params`: `set_s3_params` with the settled values,
        then the policy name read back from the config file. */
    method StoreS3Params(bucket: string, policy: Option<string>, sse: Option<string>,
                         s3: S3Replies, policyReply: IamReply, policyUuid: string)
      returns (r: Result<BucketInfo>)
      requires ValidSse(sse)
      modifies this
      ensures var region := ResolveRegion(old(aws), host);
              var name := if policy.Some? then policy.value else GeneratedPolicyName(policyUuid);
              var created := CreateBucketFlow(bucket, region, sse, s3);
              var registered := CreatePolicyFlow(name, bucket, policyReply);
              && (r.Ok? <==> created.result.Ok? && registered.result.Ok?)
              && calls == old(calls) + created.calls + (if created.result.Ok? then registered.calls else [])
              && (created.result.Err? ==> r == Err(created.result.error) && aws == old(aws)[RegionKey := region])
              && (created.result.Ok? && registered.result.Err? ==>
                    r == Err(registered.result.error) && aws == old(aws)[RegionKey := region])
              && (r.Ok? ==> r.value == BucketInfo(bucket, name, sse)
                            && aws == old(aws)[BucketKey := bucket][PolicyKey := name][SseKey := SseText(sse)])
      ensures r.Ok? ==> ParseStoredSse(aws[SseKey]) == Ok(r.value.sse)
      ensures clients == old(clients) && repositories == old(repositories)
      ensures old(Consistent()) ==> Consistent()
    {
      var written := SetS3Params(bucket, policy, sse, s3, policyReply, policyUuid);
      if written.Err? {
        return Err(written.error);
      }
      SseRoundTrip(sse);
      r := Ok(BucketInfo(bucket, aws[PolicyKey], sse));
    }
  }

  /** The module import, with its failure made explicit: it fails exactly
      when `get_profile(fallback=None)` raises. */
  method Import(store: Store, host: Host, regions: seq<string>, repositories: set<(string, string)>)
    returns (r: Result<Cloudknot>)
    ensures r.Err? <==> ResolveProfile(store, host, None).Err?
    ensures r.Err? ==> r.error == IndexError
    ensures r.Ok? ==> fresh(r.value) && r.value.Consistent() && r.value.host == host
  {
    var profile := ResolveProfile(store, host, None);
    if profile.Err? {
      return Err(profile.error);
    }
    var c := new Cloudknot(store, host, regions, repositories);
    r := Ok(c);
  }

  /** Following the import with `set_region` to a listed region always
      succeeds and leaves every client in that region. */
  method ImportThenSetRegion(store: Store, host: Host, regions: seq<string>, region: string)
    returns (r: Result<()>)
    requires ResolveProfile(store, host, None).Ok?
    requires region in regions
    ensures r.Ok?
  {
    var c := new Cloudknot(store, host, regions, {});
    r := c.SetRegion(region);
  }
}

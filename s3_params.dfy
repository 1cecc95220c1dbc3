/** The remote half of cloudknot's S3 settings: the server-side encryption
    option and its stored form, bucket creation with its tolerated replies,
    creation of the bucket access policy, and `update_s3_policy` with its
    policy-version rotation. Each is a function of the provider's replies
    that yields the requests issued and the outcome. */
module S3Params {
  import opened Wrappers
  import opened PolicyDocument
  import opened Provider

  const SseAes := "AES256"
  const SseKms := "aws:kms"
  const PolicyPath := "/cloudknot/"

  /** The `sse` values `set_s3_params` accepts. */
  predicate ValidSse(sse: Option<string>) {
    sse.None? || sse.value == SseAes || sse.value == SseKms
  }

  /** Python's `str(sse)`, the form `set_s3_params` stores. */
  function SseText(sse: Option<string>): string {
    match sse
    case None => "None"
    case Some(s) => s
  }

  /** How `get_s3_params` reads the stored `s3-sse` option back. */
  function ParseStoredSse(stored: string): (r: Result<Option<string>>)
    ensures r.Err? ==> r.error == InputError
  {
    if stored !in [SseAes, SseKms, "None"] then Err(InputError)
    else if stored == "None" then Ok(None)
    else Ok(Some(stored))
  }

  /** Set-then-get: a value `set_s3_params` accepted is read back unchanged. */
  lemma SseRoundTrip(sse: Option<string>)
    requires ValidSse(sse)
    ensures ParseStoredSse(SseText(sse)) == Ok(sse)
  {
  }

  /** Get-then-set: whatever `get_s3_params` accepts is a valid `sse` whose
      stored form is the text it read; everything else is an input error. */
  lemma StoredSseCanonical(stored: string)
    ensures ParseStoredSse(stored).Ok? <==> stored in {SseAes, SseKms, "None"}
    ensures ParseStoredSse(stored).Ok? ==>
              ValidSse(ParseStoredSse(stored).value) && SseText(ParseStoredSse(stored).value) == stored
  {
  }

  /** The string "None" is not itself an accepted `sse` value. */
  lemma SseNoneTextRefused()
    ensures !ValidSse(Some("None"))
  {
  }

  function GeneratedPolicyName(uuid: string): string {
    "cloudknot-bucket-access-" + uuid
  }

  /** An S3 error code that makes `set_s3_params` retry without a location
      constraint. */
  predicate IsLocationError(reply: BucketReply) {
    reply.BucketClientError?
    && (reply.code == "IllegalLocationConstraintException" || reply.code == "InvalidLocationConstraint")
  }

  /** The `create_bucket` reply that decides the outcome: the retry's,
      when the first one rejected the location constraint. */
  function DecidingReply(s3: S3Replies): BucketReply {
    if IsLocationError(s3.createBucket) then s3.createBucketWithoutLocation else s3.createBucket
  }

  /** The handling shared by both `create_bucket` attempts: an own bucket
      is fine, someone else's is probed, any other error is passed on. */
  function AfterCreateBucket(calls: seq<RemoteCall>, reply: BucketReply, bucket: string,
                             sse: Option<string>, probeSucceeds: bool): Attempt<()>
  {
    match reply
    case BucketCreated => Attempt(calls, Ok(()))
    case BucketAlreadyOwnedByYou => Attempt(calls, Ok(()))
    case BucketAlreadyExists =>
      Attempt(calls + [ProbeBucket(bucket, sse)], if probeSucceeds then Ok(()) else Err(InputError))
    case BucketClientError(code) => Attempt(calls, Err(ProviderError(code)))
  }

  /** The bucket-creation part of `set_s3_params`. */
  function CreateBucketFlow(bucket: string, region: string, sse: Option<string>, s3: S3Replies): (a: Attempt<()>)
    ensures |a.calls| >= 1 && a.calls[0] == CreateBucket(bucket, Some(region))
    ensures CreateBucket(bucket, None) in a.calls <==> IsLocationError(s3.createBucket)
    ensures ProbeBucket(bucket, sse) in a.calls <==> DecidingReply(s3) == BucketAlreadyExists
    ensures a.result.Ok? <==>
              DecidingReply(s3) in {BucketCreated, BucketAlreadyOwnedByYou}
              || (DecidingReply(s3) == BucketAlreadyExists && s3.probeSucceeds)
    ensures a.result == Err(InputError) <==> DecidingReply(s3) == BucketAlreadyExists && !s3.probeSucceeds
    ensures DecidingReply(s3).BucketClientError? ==> a.result == Err(ProviderError(DecidingReply(s3).code))
  {
    var first := [CreateBucket(bucket, Some(region))];
    if IsLocationError(s3.createBucket) then
      AfterCreateBucket(first + [CreateBucket(bucket, None)], s3.createBucketWithoutLocation,
                        bucket, sse, s3.probeSucceeds)
    else
      AfterCreateBucket(first, s3.createBucket, bucket, sse, s3.probeSucceeds)
  }

  /** The policy-creation part of `set_s3_params`: an existing policy of
      that name is accepted as it is. */
  function CreatePolicyFlow(policy: string, bucket: string, reply: IamReply): (a: Attempt<()>)
    ensures a.calls == [CreatePolicy(policy, PolicyPath, BucketPolicyDocument(bucket))]
    ensures a.result.Ok? <==> reply == Accepted || reply == EntityAlreadyExists
  {
    Attempt([CreatePolicy(policy, PolicyPath, BucketPolicyDocument(bucket))],
            if reply == Accepted || reply == EntityAlreadyExists then Ok(()) else Err(IamError(reply)))
  }

  /** The ARN of the first listed policy called `name`: Python's
      `[p for p in policies if p['PolicyName'] == policy][0]['Arn']`. */
  function FindPolicyArn(policies: seq<PolicyEntry>, name: string): (r: Option<string>)
    ensures r.None? <==> forall i :: 0 <= i < |policies| ==> policies[i].policyName != name
    ensures r.Some? ==> exists i :: 0 <= i < |policies| && policies[i] == PolicyEntry(name, r.value)
                                    && forall j :: 0 <= j < i ==> policies[j].policyName != name
  {
    if policies == [] then None
    else if policies[0].policyName == name then Some(policies[0].arn)
    else
      var r := FindPolicyArn(policies[1..], name);
      if r.Some? then
        var i :| 0 <= i < |policies[1..]| && policies[1..][i] == PolicyEntry(name, r.value)
                 && forall j :: 0 <= j < i ==> policies[1..][j].policyName != name;
        assert policies[i + 1] == PolicyEntry(name, r.value);
        assert forall j :: 0 <= j < i + 1 ==> policies[j].policyName != name by {
          forall j | 0 <= j < i + 1 ensures policies[j].policyName != name {
            if j > 0 { assert policies[j] == policies[1..][j - 1]; }
          }
        }
        r
      else
        assert forall i :: 0 <= i < |policies| ==> policies[i].policyName != name by {
          forall i | 0 <= i < |policies| ensures policies[i].policyName != name {
            if i > 0 { assert policies[i] == policies[1..][i - 1]; }
          }
        }
        r
  }

  /** `[v for v in versions if not v['IsDefaultVersion']]` */
  function NonDefault(versions: seq<PolicyVersion>): (r: seq<PolicyVersion>)
    ensures |r| <= |versions|
    ensures forall v :: v in r <==> v in versions && !v.isDefault
  {
    if versions == [] then []
    else (if versions[0].isDefault then [] else [versions[0]]) + NonDefault(versions[1..])
  }

  /** The comprehension keeps the listed order: filtering two runs of
      versions one after the other gives the two filtered runs in turn, and
      one version is kept exactly when it is not the default. */
  lemma {:induction false} NonDefaultAppend(a: seq<PolicyVersion>, b: seq<PolicyVersion>)
    ensures NonDefault(a + b) == NonDefault(a) + NonDefault(b)
    decreases |a|
  {
    if a == [] {
      assert a + b == b;
    } else {
      var head: seq<PolicyVersion> := if a[0].isDefault then [] else [a[0]];
      calc {
        NonDefault(a + b);
        == { assert a + b == [a[0]] + (a[1..] + b); NonDefaultCons(a[0], a[1..] + b); }
        head + NonDefault(a[1..] + b);
        == { NonDefaultAppend(a[1..], b); }
        head + (NonDefault(a[1..]) + NonDefault(b));
        (head + NonDefault(a[1..])) + NonDefault(b);
        == { assert a == [a[0]] + a[1..]; NonDefaultCons(a[0], a[1..]); }
        NonDefault(a) + NonDefault(b);
      }
    }
  }

  /** One step of the filter, and the one-version case. */
  lemma NonDefaultCons(v: PolicyVersion, rest: seq<PolicyVersion>)
    ensures NonDefault([v] + rest) == (if v.isDefault then [] else [v]) + NonDefault(rest)
    ensures NonDefault([v]) == if v.isDefault then [] else [v]
  {
    assert ([v] + rest)[1..] == rest;
    assert [v][1..] == [];
  }

  /** The position `sorted(versions, key=CreateDate)[0]` takes from: the
      first of the versions with the earliest date (Python's sort is stable). */
  function Earliest(versions: seq<PolicyVersion>): (k: nat)
    requires versions != []
    ensures k < |versions|
    ensures forall j :: 0 <= j < |versions| ==> versions[k].createDate <= versions[j].createDate
    ensures forall j :: 0 <= j < k ==> versions[j].createDate > versions[k].createDate
  {
    if |versions| == 1 then 0
    else
      var k := Earliest(versions[1..]);
      if versions[0].createDate <= versions[1..][k].createDate then 0 else k + 1
  }

  /** Python's `update_s3_policy(policy, bucket)`: make the bucket's policy
      document the policy's new default version; if IAM refuses because the
      policy has too many versions, delete the oldest non-default version
      and try once more. */
  function UpdateS3Policy(policy: string, bucket: string, iam: IamReplies): (a: Attempt<()>)
    ensures FindPolicyArn(iam.policies, policy).None? ==> a == Attempt([], Err(IndexError))
    ensures FindPolicyArn(iam.policies, policy).Some? ==>
              |a.calls| >= 1 && a.calls[0] == CreatePolicyVersion(FindPolicyArn(iam.policies, policy).value,
                                                               BucketPolicyDocument(bucket))
    ensures forall c :: c in a.calls && c.CreatePolicyVersion? ==>
              Some(c.arn) == FindPolicyArn(iam.policies, policy) && c.document == BucketPolicyDocument(bucket)
    ensures a.result.Ok? <==>
              FindPolicyArn(iam.policies, policy).Some?
              && (iam.createPolicyVersion == Accepted
                  || (iam.createPolicyVersion == LimitExceeded && NonDefault(iam.versions) != []
                      && iam.retryPolicyVersion == Accepted))
  {
    var doc := BucketPolicyDocument(bucket);
    match FindPolicyArn(iam.policies, policy)
    case None => Attempt([], Err(IndexError))
    case Some(arn) =>
      var create := CreatePolicyVersion(arn, doc);
      if iam.createPolicyVersion == Accepted then Attempt([create], Ok(()))
      else if iam.createPolicyVersion != LimitExceeded then
        Attempt([create], Err(IamError(iam.createPolicyVersion)))
      else
        var candidates := NonDefault(iam.versions);
        if candidates == [] then Attempt([create], Err(IndexError))
        else
          var oldest := candidates[Earliest(candidates)];
          Attempt([create, DeletePolicyVersion(arn, oldest.versionId), create],
                  if iam.retryPolicyVersion == Accepted then Ok(()) else Err(IamError(iam.retryPolicyVersion)))
  }

  predicate IsDeletion(c: RemoteCall) {
    c.DeletePolicyVersion?
  }

  /** Version rotation: a version is deleted only after IAM answered
      LimitExceeded, and then exactly one, the earliest-created non-default
      version, between two identical requests for the new default version. */
  lemma UpdateDeletesOldestOnLimit(policy: string, bucket: string, iam: IamReplies)
    ensures var a := UpdateS3Policy(policy, bucket, iam);
            (exists c :: c in a.calls && IsDeletion(c)) <==>
              (FindPolicyArn(iam.policies, policy).Some? && iam.createPolicyVersion == LimitExceeded
               && NonDefault(iam.versions) != [])
    ensures var a := UpdateS3Policy(policy, bucket, iam);
            FindPolicyArn(iam.policies, policy).Some? && iam.createPolicyVersion == LimitExceeded
            && NonDefault(iam.versions) != [] ==>
              var arn := FindPolicyArn(iam.policies, policy).value;
              var create := CreatePolicyVersion(arn, BucketPolicyDocument(bucket));
              exists v :: && v in iam.versions && !v.isDefault
                          && (forall w :: w in iam.versions && !w.isDefault ==> v.createDate <= w.createDate)
                          && a.calls == [create, DeletePolicyVersion(arn, v.versionId), create]
  {
    var a := UpdateS3Policy(policy, bucket, iam);
    var candidates := NonDefault(iam.versions);
    if FindPolicyArn(iam.policies, policy).Some? && iam.createPolicyVersion == LimitExceeded && candidates != [] {
      var v := candidates[Earliest(candidates)];
      assert v in candidates;
      forall w | w in iam.versions && !w.isDefault ensures v.createDate <= w.createDate {
        assert w in candidates;
        var j :| 0 <= j < |candidates| && candidates[j] == w;
      }
      assert IsDeletion(a.calls[1]);
    } else {
      assert forall c :: c in a.calls ==> !IsDeletion(c);
    }
  }

  /** A concrete rotation: with versions v1 (default, day 1), v2 (day 3) and
      v3 (day 2), the limit reply makes `update_s3_policy` delete v3. */
  lemma UpdateRotationExample(bucket: string)
    ensures
      var iam := IamReplies([PolicyEntry("p", "arn:p")], Accepted, LimitExceeded,
                            [PolicyVersion("v1", true, 1), PolicyVersion("v2", false, 3),
                             PolicyVersion("v3", false, 2)], Accepted);
      var create := CreatePolicyVersion("arn:p", BucketPolicyDocument(bucket));
      UpdateS3Policy("p", bucket, iam)
        == Attempt([create, DeletePolicyVersion("arn:p", "v3"), create], Ok(()))
  {
    var versions := [PolicyVersion("v1", true, 1), PolicyVersion("v2", false, 3), PolicyVersion("v3", false, 2)];
    assert NonDefault(versions) == [versions[1], versions[2]] by {
      assert versions[1..] == [versions[1], versions[2]];
      assert versions[1..][1..] == [versions[2]];
      assert [versions[2]][1..] == [];
    }
    var candidates := [versions[1], versions[2]];
    assert Earliest(candidates) == 1 by {
      assert candidates[1..] == [versions[2]];
    }
  }
}

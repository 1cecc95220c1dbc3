/** The boundary to AWS. Remote services are not modelled; what the base
    layer sends to them is recorded as `RemoteCall`s, and what they answer is
    given as reply values chosen by the caller of the model. */
module Provider {
  import opened Wrappers
  import opened PolicyDocument

  /** The six services of the `clients` dictionary. */
  datatype Service = Iam | Ec2 | Batch | Ecr | Ecs | S3

  const AllServices: set<Service> := {Iam, Ec2, Batch, Ecr, Ecs, S3}

  /** A request that changes something on the provider's side. */
  datatype RemoteCall =
    | CreateRepository(region: string, name: string)
    | CreateBucket(bucket: string, locationConstraint: Option<string>)
    /** `test_bucket_put_get`: put, get and delete of a test object */
    | ProbeBucket(bucket: string, sse: Option<string>)
    | CreatePolicy(policyName: string, path: string, document: Document)
    | CreatePolicyVersion(arn: string, document: Document)
    | DeletePolicyVersion(arn: string, versionId: string)

  /** The requests an operation issued, in order, and how it ended. */
  datatype Attempt<T> = Attempt(calls: seq<RemoteCall>, result: Result<T>)

  /** S3's answer to `create_bucket`. */
  datatype BucketReply =
    | BucketCreated
    | BucketAlreadyOwnedByYou
    | BucketAlreadyExists
    | BucketClientError(code: string)

  /** Everything the S3 side answers during one `set_s3_params`. */
  datatype S3Replies = S3Replies(
    createBucket: BucketReply,
    createBucketWithoutLocation: BucketReply,
    probeSucceeds: bool)

  /** IAM's answer to `create_policy` or `create_policy_version`. */
  datatype IamReply =
    | Accepted
    | EntityAlreadyExists
    | LimitExceeded
    | IamClientError(code: string)

  /** One entry of `list_policies(Scope='Local', PathPrefix='/cloudknot/')`. */
  datatype PolicyEntry = PolicyEntry(policyName: string, arn: string)

  /** One entry of `list_policy_versions`; `createDate` as a timestamp. */
  datatype PolicyVersion = PolicyVersion(versionId: string, isDefault: bool, createDate: int)

  /** Everything the IAM side answers during one `get_s3_params`. */
  datatype IamReplies = IamReplies(
    policies: seq<PolicyEntry>,
    createPolicy: IamReply,
    createPolicyVersion: IamReply,
    versions: seq<PolicyVersion>,
    retryPolicyVersion: IamReply)

  /** The exception an IAM reply other than `Accepted` surfaces as. */
  function IamError(reply: IamReply): (e: Error)
    requires reply != Accepted
    ensures e.ProviderError?
  {
    match reply
    case EntityAlreadyExists => ProviderError("EntityAlreadyExists")
    case LimitExceeded => ProviderError("LimitExceeded")
    case IamClientError(code) => ProviderError(code)
  }
}

# cloudknot AWS base layer, modelled in Dafny

This project models the account-configuration layer of cloudknot, `cloudknot/aws/base_classes.py`. That layer does four things:

- It resolves the AWS region, the AWS profile, the ECR repository name and the S3 bucket settings. Each starts from cloudknot's own config file, and each chain after that is its own:
  - the region: `AWS_DEFAULT_REGION`, then `[default] region` of `~/.aws/config`, then `us-east-1`;
  - the profile: `AWS_PROFILE`, then `default` when `list_profiles` names it, then the caller's fallback;
  - the ECR repository: `CLOUDKNOT_ECR_REPO`, then `cloudknot`;
  - the bucket: `CLOUDKNOT_S3_BUCKET`, then a generated name; the policy name has no environment step and is generated when missing.

  A value found outside the config file is written back to it, except the profile fallback, which never is.
- It keeps the module-level `clients` dictionary of six boto3 clients (IAM, EC2, Batch, ECR, ECS, S3) bound to that region and profile.
- It creates the S3 bucket and its IAM access policy, and rotates policy versions when IAM's version limit is reached.
- It provides the base classes of cloudknot's resource objects and the two wait loops that poll AWS Batch until a resource settles.

Modules, in dependency order:

- `Wrappers` (`wrappers.dfy`): `Option`, `Result`, and one `Error` variant per exception the code raises or lets escape.
- `Text` (`text.dfy`): Python's `str.split()`, `' '.join`, `lower()`, `strip()` and `int()` on strings, over ASCII.
- `AwsFiles` (`aws_files.dfy`): the host. It holds environment variables, the home directory and the AWS ini files as sections. It also holds `list_profiles`.
- `Resolver` (`resolver.dfy`): the `[aws]` section as a `map<string, string>` and the fallback chains of `get_region`, `get_profile`, `get_ecr_repo` and the bucket name.
- `PolicyDocument` (`policy_document.dfy`): `bucket_policy_document` as a value.
- `Provider` (`provider.dfy`): the boundary to AWS. The requests that change something remotely are recorded as `RemoteCall`s. The replies of S3 and IAM are inputs chosen by the caller of the model.
- `S3Params` (`s3_params.dfy`): the `sse` option and its stored form, the bucket-creation dispatch, policy creation, and `update_s3_policy`.
- `Poller` (`poller.dfy`): `wait_for_compute_environment` and `wait_for_job_queue` as one `while` loop, proved against a recursive function.
- `Account` (`account.dfy`): class `Cloudknot`, the process-wide state. It has the config section `aws`, the `clients` map, the existing ECR repositories and the trace of remote calls. It has one method per getter and setter, plus `refresh_clients` and the module import. Its invariant `Consistent()` says:
  - every client entry is bound to the stored region and the stored profile;
  - all entries share one pool size;
  - when no profile is stored, the host offers none.
- `Resources` (`resources.dfy`): `NamedObject`, `ObjectWithArn` and `ObjectWithUsernameAndMemory` as values. Their constructors and checks are module-level methods that take the `Cloudknot` state they read and write.

Three behaviours of the code worth noting:

- **When a wait loop aborts.** The poll counter is compared with `max_wait_time` after every poll, before the status, so:
  - a loop whose resource never settles aborts after poll `max_wait_time + 1`; with `max_wait_time = 2` that is the third poll, not the second (`Poller.AbortsAfterThirdPoll`);
  - a poll past the limit aborts even when it saw the resource settled (`Poller.SettledPastLimitStillAborts`).
- **Where `get_region` reads the AWS config file.** It always reads `~/.aws/config` and ignores `AWS_CONFIG_FILE`, while `list_profiles` honours that variable.
- **What `set_s3_params` writes.** It writes the config file back from the copy it read before calling `get_region()`. A region that call wrote back is therefore dropped again on success (`Account.Cloudknot.SetS3Params`).

## Model

| member | source | states |
|---|---|---|
| `Text.Tokens` | cloudknot/aws/base_classes.py:521-522 | every element of `s.split()` is a non-empty run of non-whitespace characters |
| `Text.TokensEmptyIffAllSpace` | cloudknot/aws/base_classes.py:521-522 | `split()` is empty exactly when the string is all whitespace, which is when `s.split()[0]` raises |
| `Text.SplitJoin` | cloudknot/aws/base_classes.py:940 | `' '.join(ws).split() == ws` when no element contains whitespace |
| `Text.ParseDecimal` | cloudknot/aws/base_classes.py:1003 | `int(str(n)) == n` for every natural number |
| `Text.ParseNonNumeral` | cloudknot/aws/base_classes.py:1003 | `int()` of a string without digits raises ValueError |
| `AwsFiles.ConfigProfiles` | cloudknot/aws/base_classes.py:521-522 | it succeeds exactly when no section name is blank, and fails with IndexError otherwise; `X` is kept exactly when some section is `profile X` with two tokens |
| `AwsFiles.ConfigProfilesAppend` | cloudknot/aws/base_classes.py:521-522 | the comprehension keeps the headers' order and repetitions: two runs of headers give the first run's profiles followed by the second's, and either run failing fails the whole |
| `AwsFiles.ConfigProfilesSingle` | cloudknot/aws/base_classes.py:521-522 | one header gives IndexError when blank, `[X]` when it is exactly `profile X`, and nothing otherwise |
| `AwsFiles.ListProfiles` | cloudknot/aws/base_classes.py:484-536 | the names are exactly the config file's profile list, in order, followed by every credentials-file section verbatim; both paths honour their environment overrides; a blank config section name fails with IndexError |
| `AwsFiles.ConfigProfilesExample` | cloudknot/aws/base_classes.py:521-522 | a bare `[default]` config section is not a profile, while `[profile X]` gives `X` |
| `AwsFiles.ListProfilesExample` | cloudknot/aws/base_classes.py:484-524 | with both files named by environment variables, `list_profiles` gives the config profiles and then the credentials sections |
| `AwsFiles.IniGet` | cloudknot/aws/base_classes.py:413-415 | the option's value in the first section of that name; nothing when that section lacks the option or no section has the name |
| `AwsFiles.AwsConfigDefaultRegion` | cloudknot/aws/base_classes.py:403-421 | a present `~/.aws/config` whose `[default]` section sets `region` gives that region; a missing file, or one whose `[default]` section is absent or has no region, gives `us-east-1` |
| `AwsFiles.AwsConfigDefaultRegionExample` | cloudknot/aws/base_classes.py:409-419 | a `[default] region` is found after another section; a `[default]` section without a region gives `us-east-1` even when another section sets one |
| `Resolver.RegionFromHost` | cloudknot/aws/base_classes.py:399-419 | AWS_DEFAULT_REGION wins; otherwise the AWS config file's default region is used |
| `Resolver.RegionWriteBackIdempotent` | cloudknot/aws/base_classes.py:395-430 | after the write-back, `get_region` gives the same region from the store whatever the host says later |
| `Resolver.RegionStoreFirst` | cloudknot/aws/base_classes.py:395-396 | a stored region hides every host source |
| `Resolver.ResolveRegion` | cloudknot/aws/base_classes.py:395-421 | definition of `get_region`'s answer: the stored region, else the host's; its properties are the three lemmas below |
| `Resolver.RegionHostOrder` | cloudknot/aws/base_classes.py:399-421 | without a stored region, AWS_DEFAULT_REGION comes first, then a present `~/.aws/config`'s `[default] region`, and `us-east-1` exactly when neither gives one |
| `Resolver.ProfileFromHost` | cloudknot/aws/base_classes.py:568-576 | AWS_PROFILE wins; otherwise a listing error is passed on, a listed `default` is chosen, and an unlisted one gives no profile |
| `Resolver.ResolveProfile` | cloudknot/aws/base_classes.py:565-577 | `get_profile` answers "no profile" only when the caller's fallback is None; it fails exactly when nothing is stored, AWS_PROFILE is unset and `list_profiles` fails |
| `Resolver.ProfileOrder` | cloudknot/aws/base_classes.py:542-576 | the chain is store, then AWS_PROFILE, then a listed `default`, then the caller's fallback; a failing `list_profiles` is IndexError, and only after the first two are silent |
| `Resolver.StoreAfterGetProfile` | cloudknot/aws/base_classes.py:565-585 | `get_profile` keeps every stored option and adds at most `profile` |
| `Resolver.ProfileWriteBackIdempotent` | cloudknot/aws/base_classes.py:565-585 | a second `get_profile` gives the same answer and writes nothing more |
| `Resolver.ProfileFallbackNotPersisted` | cloudknot/aws/base_classes.py:573-585 | the fallback is returned without any write; whatever is written is what was returned, under the `profile` key only |
| `Resolver.ProfileAnswerIsStored` | cloudknot/aws/base_classes.py:565-585 | `get_profile(fallback=None)` answers exactly the profile recorded in the store it leaves |
| `Resolver.EcrRepoWriteBackIdempotent` | cloudknot/aws/base_classes.py:54-67 | after `get_ecr_repo` writes back, the same name comes from the store |
| `Resolver.ResolveEcrRepo` | cloudknot/aws/base_classes.py:53-63 | definition of `get_ecr_repo`'s answer; `EcrRepoOrder` states its chain |
| `Resolver.EcrRepoOrder` | cloudknot/aws/base_classes.py:54-63 | the chain is store, then CLOUDKNOT_ECR_REPO, then `cloudknot` |
| `Resolver.GeneratedBucket` | cloudknot/aws/base_classes.py:149-150 | the generated bucket name is `cloudknot-`, the lower-cased user name, `-`, and the uuid, with the length to match |
| `Resolver.ResolveBucket` | cloudknot/aws/base_classes.py:139-150 | definition of the bucket `get_s3_params` settles on: stored, else CLOUDKNOT_S3_BUCKET, else `GeneratedBucket` |
| `Resolver.IsConfigured` | cloudknot/aws/base_classes.py:905-907 | definition of the guard: `configured` is stored as `True` |
| `PolicyDocument.BucketPolicyDocument` | cloudknot/aws/base_classes.py:286-316 | definition of the document; the three lemmas below state its grants, its round trip and its injectivity |
| `PolicyDocument.BucketPolicyGrants` | cloudknot/aws/base_classes.py:300-316 | the document grants exactly three Allow permissions: ListBucket on the bucket, PutObject and GetObject on its objects |
| `PolicyDocument.PolicyBucketRoundTrip` | cloudknot/aws/base_classes.py:300-316 | the bucket can be read back from the document; the objects resource is the bucket resource plus `/*` |
| `PolicyDocument.BucketPolicyInjective` | cloudknot/aws/base_classes.py:286-316 | different buckets get different documents |
| `S3Params.ValidSse` | cloudknot/aws/base_classes.py:199-201 | definition of the `sse` values `set_s3_params` accepts; `SseNoneTextRefused` and `StoredSseCanonical` are about it |
| `S3Params.SseText` | cloudknot/aws/base_classes.py:281 | definition of `str(sse)`; `SseRoundTrip` states that it reads back |
| `S3Params.GeneratedPolicyName` | cloudknot/aws/base_classes.py:262-263 | definition of the generated policy name, `cloudknot-bucket-access-` and the uuid |
| `S3Params.ParseStoredSse` | cloudknot/aws/base_classes.py:157-169 | a stored `sse` other than the three accepted strings is CloudknotInputError |
| `S3Params.SseRoundTrip` | cloudknot/aws/base_classes.py:160-169 | each `sse` that `set_s3_params` accepts is read back unchanged from `str(sse)` |
| `S3Params.StoredSseCanonical` | cloudknot/aws/base_classes.py:160-169 | `get_s3_params` accepts exactly `AES256`, `aws:kms` and `None`, and what it accepts is valid with the same stored text |
| `S3Params.SseNoneTextRefused` | cloudknot/aws/base_classes.py:199-201 | the string `"None"` is not an accepted `sse` argument |
| `S3Params.CreateBucketFlow` | cloudknot/aws/base_classes.py:236-260 | it first tries with the region as location constraint; it retries without a constraint exactly on the two location error codes; it probes exactly when the bucket belongs to someone else; it succeeds exactly on a usable reply; a failed probe is CloudknotInputError; other errors pass through |
| `S3Params.CreatePolicyFlow` | cloudknot/aws/base_classes.py:265-278 | one `create_policy` under `/cloudknot/` with the bucket's document; an existing policy counts as success |
| `S3Params.FindPolicyArn` | cloudknot/aws/base_classes.py:338-341 | the ARN of the first listed policy of that name; none exactly when no entry has the name, which is where `[0]` raises |
| `S3Params.NonDefault` | cloudknot/aws/base_classes.py:358-359 | exactly the versions that are not the default |
| `S3Params.NonDefaultAppend` | cloudknot/aws/base_classes.py:358-359 | the filter keeps the listed order: two runs filter to the two filtered runs in turn, and one version is kept exactly when it is not the default |
| `S3Params.NonDefaultCons` | cloudknot/aws/base_classes.py:358-359 | one step of the filter: the first version is kept in front exactly when it is not the default; a single version likewise |
| `S3Params.Earliest` | cloudknot/aws/base_classes.py:362 | the index of an earliest-created version, namely the first among ties, as a stable sort yields |
| `S3Params.UpdateS3Policy` | cloudknot/aws/base_classes.py:319-373 | an unknown policy is IndexError with no call; every new version carries the bucket's document under the found ARN; it succeeds exactly when the first attempt is accepted, or the limit was hit, a non-default version exists and the retry is accepted |
| `S3Params.UpdateDeletesOldestOnLimit` | cloudknot/aws/base_classes.py:344-373 | a version is deleted only after LimitExceeded; then exactly one, an earliest non-default version, between two identical create requests |
| `S3Params.UpdateRotationExample` | cloudknot/aws/base_classes.py:351-373 | with the default at day 1 and others at days 3 and 2, the day-2 version is deleted |
| `Poller.AbortPoll` | cloudknot/aws/base_classes.py:1067-1069 | the giving-up poll is the first count past `max_wait_time`, and never before poll 1 |
| `Poller.PollFrom` | cloudknot/aws/base_classes.py:1047-1072 | definition of the loop from poll `n` on: the count is checked before the status; `PollFromFacts` states its bounds |
| `Poller.Poll` | cloudknot/aws/base_classes.py:1045-1072 | definition of the loop's outcome from the first poll; `PollCharacterisation` states what it promises |
| `Poller.PollFromFacts` | cloudknot/aws/base_classes.py:1047-1072 | from any poll on, the outcome comes no earlier, every poll in between was waiting, and a settled or aborted end has its bound |
| `Poller.PollCharacterisation` | cloudknot/aws/base_classes.py:1045-1072 | at least one poll; all earlier polls were waiting; it settles iff some poll within the limit settled, at the first one; otherwise it aborts at poll `max(1, max_wait_time + 1)` |
| `Poller.WaitForSettlement` | cloudknot/aws/base_classes.py:1045-1072 | the `while waiting` loop computes exactly the outcome the recursive definition gives, with its bounds |
| `Poller.WaitForComputeEnvironment` | cloudknot/aws/base_classes.py:1025-1072 | the same bounds over `describe_compute_environments` answers for the ARN; default limit 60 |
| `Poller.WaitForJobQueue` | cloudknot/aws/base_classes.py:1076-1116 | the same bounds over `describe_job_queues` answers for the name; default limit 60 |
| `Poller.SettlesAtThirdPoll` | cloudknot/aws/base_classes.py:1061-1069 | CREATING, CREATING, ACTIVE settles at the third poll |
| `Poller.AbortsAfterThirdPoll` | cloudknot/aws/base_classes.py:1067-1072 | with `max_wait_time = 2`, a resource that never settles aborts after the third poll |
| `Poller.SettledPastLimitStillAborts` | cloudknot/aws/base_classes.py:1067-1072 | with `max_wait_time = 0`, the first poll aborts whatever it saw |
| `Account.ProfileListed` | cloudknot/aws/base_classes.py:599-609 | a profile is accepted exactly when `list_profiles` names it; an unknown one is CloudknotInputError and a listing failure is IndexError |
| `Account.StoredPolicy` | cloudknot/aws/base_classes.py:130-137 | definition of the policy name `get_s3_params` starts from: the stored one, or none |
| `Account.StoredSse` | cloudknot/aws/base_classes.py:157-169 | an absent `s3-sse` is None; a stored one fails with CloudknotInputError exactly when it is not one of the three accepted strings; what it accepts is a valid `sse` whose `str()` is the stored text |
| `Account.RepointPolicy` | cloudknot/aws/base_classes.py:139-155 | `update_s3_policy` runs exactly when the bucket name is not stored and a policy name is; otherwise no request is made |
| `Account.Cloudknot.constructor` | cloudknot/aws/base_classes.py:644-663 | the import writes back the profile and region; all six clients get the same binding with the default pool size of 10; `Consistent()` holds |
| `Account.Import` | cloudknot/aws/base_classes.py:644-663 | the import fails exactly when `get_profile(fallback=None)` raises, and otherwise yields a consistent state |
| `Account.Cloudknot.GetRegion` | cloudknot/aws/base_classes.py:376-430 | it returns the resolved region and writes exactly that region back; on a consistent state it changes nothing |
| `Account.Cloudknot.GetProfile` | cloudknot/aws/base_classes.py:539-585 | it returns the resolved profile and leaves the store the resolver predicts; on a consistent state it cannot fail and writes nothing |
| `Account.Cloudknot.SetRegion` | cloudknot/aws/base_classes.py:433-481 | an unlisted region is CloudknotInputError with store and clients unchanged; on success all six clients are bound to the new region, the profile `get_profile(fallback=None)` gave and the IAM client's pool size, and `Consistent()` holds; on a consistent state it fails only on an unlisted region |
| `Account.Cloudknot.RebuildClients` | cloudknot/aws/base_classes.py:629-640 | six `get_region()` calls give one region, written back once; all six entries get the same binding |
| `Account.Cloudknot.CommitProfile` | cloudknot/aws/base_classes.py:617-640 | once the name is accepted: the profile is stored, the region written back, all six clients bound to the resolved region, that profile and the IAM client's pool size, and `Consistent()` holds |
| `Account.Cloudknot.SetProfile` | cloudknot/aws/base_classes.py:588-640 | an unlisted profile is refused with store and clients unchanged; on success the profile is stored, all six clients use it in the resolved region with the old pool size, and `Consistent()` holds |
| `Account.Cloudknot.RefreshClients` | cloudknot/aws/base_classes.py:675-691 | it fails only if `get_profile(fallback=None)` does, changing nothing; otherwise all six clients are rebound to the store's values with the given pool size, and `Consistent()` holds |
| `Account.Cloudknot.SetEcrRepo` | cloudknot/aws/base_classes.py:72-103 | the name is stored; the repository exists afterwards in the ECR client's region; it is created exactly when it was missing |
| `Account.Cloudknot.GetEcrRepo` | cloudknot/aws/base_classes.py:35-69 | it returns the resolver's name, stores it, the repository exists afterwards, and a `create_repository` is sent exactly when it was missing |
| `Account.Cloudknot.SetS3Params` | cloudknot/aws/base_classes.py:182-283 | an invalid `sse` is refused before any request; otherwise it sends the bucket requests and then the policy request; it succeeds exactly when both do; on success the store is the copy read at the start plus bucket, policy name and `str(sse)`; on failure only the region write-back remains |
| `Account.Cloudknot.GetS3Params` | cloudknot/aws/base_classes.py:106-179 | a new bucket with a known policy goes through `update_s3_policy` first, whose failure stops everything with only its requests sent; a bad stored `sse` then fails with CloudknotInputError; otherwise the bucket and policy requests follow, it succeeds exactly when both do, and on success it returns the resolved bucket, the stored or generated policy name and the stored `sse`, with the store being the old one plus those three; on a later failure only the region write-back remains |
| `Account.Cloudknot.StoreS3Params` | cloudknot/aws/base_classes.py:171-179 | `set_s3_params` with the settled values, whose requests, outcome and store it passes on; on success it returns the bucket, the policy name now stored and `sse`, which reads back from the store |
| `Account.ImportThenSetRegion` | cloudknot/aws/base_classes.py:444-481 | right after the import, `set_region` to a listed region always succeeds |
| `Resources.ValidateMemory` | cloudknot/aws/base_classes.py:1002-1009 | accepted memory is at least 1; a number is accepted iff positive; a string is accepted iff `int()` reads a positive number from it, and then as that number; failures are CloudknotInputError |
| `Resources.MemoryTextRoundTrip` | cloudknot/aws/base_classes.py:1003-1007 | a positive decimal string is accepted as its value |
| `Resources.MemoryTextWithoutDigitsRefused` | cloudknot/aws/base_classes.py:1008-1009 | a string without digits is CloudknotInputError |
| `Resources.SectionName` | cloudknot/aws/base_classes.py:935-940 | definition of the section name: type, profile and region joined by spaces; `SectionNameSplits` is about it |
| `Resources.SectionNameSplits` | cloudknot/aws/base_classes.py:935-940 | the section name splits back into type, profile and region |
| `Resources.NewNamedObject` | cloudknot/aws/base_classes.py:900-913 | it fails with CloudknotConfigurationError, writing nothing, unless `configured` is `True`; otherwise the object has `clobbered` false and the region and profile the resolvers give, taken in that order |
| `Resources.NewObjectWithArn` | cloudknot/aws/base_classes.py:961-970 | the same guard and the same store afterwards; the ARN is None |
| `Resources.NewObjectWithUsernameAndMemory` | cloudknot/aws/base_classes.py:984-1011 | the base guard first, with the same store afterwards, then memory validation; the defaults are 32000 and `cloudknot-user` |
| `Resources.CheckProfile` | cloudknot/aws/base_classes.py:942-945 | it passes exactly when the current `get_profile()` equals the object's profile, and otherwise reports both profiles |
| `Resources.CheckProfileAndRegion` | cloudknot/aws/base_classes.py:947-952 | a region mismatch is reported, with both regions, before any profile check; a profile mismatch reports both profiles; it passes exactly when both match; the store after each path is given |
| `Resources.CreatedObjectPassesChecks` | cloudknot/aws/base_classes.py:900-952 | an object just created on a consistent, configured account passes `check_profile_and_region` |

## Left out

- boto3 and botocore are not modelled. Sessions, clients, credentials and every AWS request are absent. A client is its (region, profile, pool size) binding. Replies are inputs: the region list, the existing repositories, bucket and IAM replies, the policy list and the version list.
- Read-only requests are not recorded in the trace: `describe_regions`, `describe_repositories`, `list_policies`, `list_policy_versions` and the describe calls of the wait loops.
- `test_bucket_put_get` is one `ProbeBucket` call with a success flag. Its put, get and delete are not modelled separately, and neither is a failed delete, which is ignored anyway.
- Errors of `describe_repositories` other than "not found", and any failure of `create_repository` or `delete_policy_version`, are not modelled.
- File I/O and the configparser text format are not modelled. The config file is its `[aws]` section as a map. The AWS ini files are lists of sections. Duplicate sections, the `DEFAULT` section, interpolation and other sections of the cloudknot config file are not modelled. `get_config_file` is not part of this model.
- `os.path.abspath` of the environment-given paths in `list_profiles` is not modelled: the paths are used as given.
- `rlock` and concurrency are not modelled: the model is single-threaded.
- The host does not change while the module is loaded: `Cloudknot.host` (environment variables, home directory and AWS ini files) and `Cloudknot.regions` (the `describe_regions` answer) are fixed when the state is created. Python re-reads `os.environ` and the AWS files on every `get_profile` and `get_region` call, so setting AWS_PROFILE after the import can leave the clients bound to a profile the store does not record. The model does not capture that. These clauses hold only because the host is fixed: the last conjunct of `Consistent()` (with no profile stored, the host offers none) and with it the profile every client is bound to, `GetProfile`'s "cannot fail and writes nothing" on a consistent state, `RefreshClients`'s success on a consistent state, `SetRegion`'s "fails only on an unlisted region", and `CreatedObjectPassesChecks`.
- `time.sleep`, logging (the `log` flag) and real process exit are not modelled. `sys.exit` becomes the `Abort` outcome.
- `uuid.uuid4()` and `getpass.getuser()` are parameters.
- `json.dumps` of the policy document is not modelled; the document is a value.
- Python whitespace and digits are ASCII only in `Text`. `int()` on strings does not accept underscores between digits.
- `Resources.ValidateMemory`: a float argument is not modelled, although `int()` would truncate it. Neither is any other argument type that raises TypeError.
- `str(name)` and `str(username)` are not modelled: both are taken as strings already.
- Exception messages are not modelled, except the regions and profiles that RegionException and ProfileException report. The exception classes `ResourceExistsException`, `ResourceDoesNotExistException`, `ResourceClobberedException`, `CannotDeleteResourceException`, `CannotCreateResourceException`, `CKTimeoutError` and `BatchJobFailedError` are not modelled: nothing in this layer raises them.
- `cloudknot/aws/__init__.py` only re-exports names and is not part of this model.

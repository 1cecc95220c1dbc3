/** The IAM policy document that grants access to cloudknot's S3 bucket
    (`bucket_policy_document`), kept as a value: its JSON text is not modelled. */
module PolicyDocument {
  import opened Wrappers

  datatype Statement = Statement(effect: string, actions: seq<string>, resources: seq<string>)

  datatype Document = Document(version: string, statements: seq<Statement>)

  const PolicyLanguageVersion := "2012-10-17"
  const BucketArnPrefix := "arn:aws:s3:::"

  function BucketArn(bucket: string): string {
    BucketArnPrefix + bucket
  }

  function ObjectsArn(bucket: string): string {
    BucketArn(bucket) + "/*"
  }

  /** Python's `bucket_policy_document(bucket)`. */
  function BucketPolicyDocument(bucket: string): Document {
    Document(PolicyLanguageVersion, [
      Statement("Allow", ["s3:ListBucket"], [BucketArn(bucket)]),
      Statement("Allow", ["s3:PutObject", "s3:GetObject"], [ObjectsArn(bucket)])
    ])
  }

  /** The (effect, action, resource) triples a document states. */
  function Grants(doc: Document): set<(string, string, string)> {
    set i, a, r | 0 <= i < |doc.statements| && a in doc.statements[i].actions
                  && r in doc.statements[i].resources
      :: (doc.statements[i].effect, a, r)
  }

  /** The bucket a policy document is about: the resource of its first
      statement with the ARN prefix removed. */
  function PolicyBucket(doc: Document): Option<string> {
    if |doc.statements| > 0 && |doc.statements[0].resources| == 1
       && BucketArnPrefix <= doc.statements[0].resources[0]
    then Some(doc.statements[0].resources[0][|BucketArnPrefix|..])
    else None
  }

  /** The document grants exactly three permissions, all "Allow": listing
      the bucket itself, and putting and getting its objects. */
  lemma BucketPolicyGrants(bucket: string)
    ensures Grants(BucketPolicyDocument(bucket)) == {
      ("Allow", "s3:ListBucket", BucketArn(bucket)),
      ("Allow", "s3:PutObject", ObjectsArn(bucket)),
      ("Allow", "s3:GetObject", ObjectsArn(bucket))}
  {
    var doc := BucketPolicyDocument(bucket);
    var expected := {
      ("Allow", "s3:ListBucket", BucketArn(bucket)),
      ("Allow", "s3:PutObject", ObjectsArn(bucket)),
      ("Allow", "s3:GetObject", ObjectsArn(bucket))};
    forall g | g in Grants(doc) ensures g in expected {
      var i, a, r :| 0 <= i < |doc.statements| && a in doc.statements[i].actions
                     && r in doc.statements[i].resources && g == (doc.statements[i].effect, a, r);
      assert i == 0 || i == 1;
    }
    assert ("Allow", "s3:ListBucket", BucketArn(bucket)) in Grants(doc) by {
      assert "s3:ListBucket" in doc.statements[0].actions && BucketArn(bucket) in doc.statements[0].resources;
    }
    assert ("Allow", "s3:PutObject", ObjectsArn(bucket)) in Grants(doc) by {
      assert "s3:PutObject" in doc.statements[1].actions && ObjectsArn(bucket) in doc.statements[1].resources;
    }
    assert ("Allow", "s3:GetObject", ObjectsArn(bucket)) in Grants(doc) by {
      assert "s3:GetObject" in doc.statements[1].actions && ObjectsArn(bucket) in doc.statements[1].resources;
    }
  }

  /** Round trip: the bucket can be read back out of its policy document,
      so both resource entries name `bucket` and different buckets get
      different documents. */
  lemma PolicyBucketRoundTrip(bucket: string)
    ensures PolicyBucket(BucketPolicyDocument(bucket)) == Some(bucket)
    ensures BucketPolicyDocument(bucket).statements[1].resources[0]
              == BucketPolicyDocument(bucket).statements[0].resources[0] + "/*"
  {
    assert BucketArn(bucket)[|BucketArnPrefix|..] == bucket;
  }

  lemma BucketPolicyInjective(b1: string, b2: string)
    requires BucketPolicyDocument(b1) == BucketPolicyDocument(b2)
    ensures b1 == b2
  {
    PolicyBucketRoundTrip(b1);
    PolicyBucketRoundTrip(b2);
  }
}

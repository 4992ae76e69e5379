/** aws-delete-tagged-cfn-stacks.py: the earlier stop script. Its discovery,
    load-balancer and bucket code is that of aws-ass-stop.py (module AssStop),
    its `create_state_bucket` is the corrected one of module AssAws, and its
    `resource_has_tag` is the one of module Tags. What differs: the deletion
    loop is commented out, so the CloudFormation path only saves records and
    runs the pre-deletion tasks; the S3 tag test is
    `aws.check_tag_on_s3_bucket`, which is not part of this model and is a
    parameter; `stop_rds` reads the unprefixed key `ass_rds_include`; and
    `main` runs only the state bucket creation and the CloudFormation path. */
module LegacyStop {
  import opened Common
  import opened Tags
  import opened Effects
  import opened AssConfig
  import opened AssAws
  import opened Rds
  import opened Discovery
  import opened AssStop
  import opened Ordering

  /** The include key of the legacy `stop_rds`, not passed to `full_ass_tag`. */
  const LegacyIncludeKey: string := "ass_rds_include"

  /** `delete_tagged_cloudformation_stacks`: discovery (which saves every
      record) and the pre-deletion tasks; no stack is deleted. */
  function LegacyCfnRun(bucket: string, stacks: Result<seq<StackDescription>>, lbs: Result<seq<LoadBalancer>>,
                        buckets: Result<seq<S3Bucket>>, checkTag: S3Bucket -> Result<bool>): Run
  {
    if stacks.Failure? then Run([], Raise(stacks.error))
    else
      var d := Discover(stacks.value, StackScan);
      var discovery := Run(StackSaves(bucket, d.found), if d.error.Some? then Raise(d.error.value) else Completed);
      AndThen(discovery, PreDeletion(lbs, buckets, checkTag))
  }

  /** The legacy path sends only state saves, access-log disabling and
      bucket emptying: nothing is deleted, terminated or stopped. */
  lemma LegacyCfnRequests(bucket: string, stacks: Result<seq<StackDescription>>, lbs: Result<seq<LoadBalancer>>,
                          buckets: Result<seq<S3Bucket>>, checkTag: S3Bucket -> Result<bool>)
    ensures forall e :: e in LegacyCfnRun(bucket, stacks, lbs, buckets, checkTag).effects ==>
      (e.SaveState? && e.bucket == bucket) || e.DisableAccessLogs? || e.EmptyBucket?
  {
    if stacks.Success? {
      var d := Discover(stacks.value, StackScan);
      var saves := StackSaves(bucket, d.found);
      assert forall e :: e in saves ==> e.SaveState? && e.bucket == bucket;
    }
  }

  /** The current stop script's CloudFormation path is the legacy one
      followed by the deletion loop over the same records. */
  lemma LegacyIsStopWithoutDeletion(bucket: string, stacks: seq<StackDescription>, lbs: Result<seq<LoadBalancer>>,
                                    buckets: Result<seq<S3Bucket>>, marked: S3Bucket -> Result<bool>, deletion: string -> Outcome)
    ensures StopCfnRun(bucket, Success(stacks), lbs, buckets, marked, deletion) ==
      AndThen(LegacyCfnRun(bucket, Success(stacks), lbs, buckets, marked),
              DeleteRun(Sort(Discover(stacks, StackScan).found, StackOrder, false), deletion))
  {
  }

  /** The legacy `delete_tagged_cloudformation_stacks`. */
  method LegacyDeleteTaggedCloudformationStacks(bucket: string, stacks: Result<seq<StackDescription>>, lbs: Result<seq<LoadBalancer>>,
                                                buckets: Result<seq<S3Bucket>>, checkTag: S3Bucket -> Result<bool>)
    returns (run: Run)
    ensures run == LegacyCfnRun(bucket, stacks, lbs, buckets, checkTag)
  {
    var result;
    result, run := GetStackNamesAndDeletionOrder(bucket, stacks);
    if run.outcome.Raise? {
      return;
    }
    var pre := DoPreDeletionTasks(lbs, buckets, checkTag);
    run := Then(run.effects, pre);
  }

  /** The legacy `stop_tagged_rds_clusters_and_instances` (defined, but not
      called by `main`): the stop loops with the unprefixed include key, so
      every request stops an item the legacy rule accepts. */
  function LegacyRdsRun(instances: Result<seq<RdsItem>>, clusters: Result<seq<RdsItem>>): (r: Run)
    ensures forall e :: e in r.effects ==>
      e.StopDb? &&
      ((instances.Success? && exists i :: 0 <= i < |instances.value| && StopsItem(Instance, instances.value[i], LegacyIncludeKey, e)) ||
       (clusters.Success? && exists i :: 0 <= i < |clusters.value| && StopsItem(Cluster, clusters.value[i], LegacyIncludeKey, e)))
  {
    var r := StopTaggedRdsRun(instances, clusters, LegacyIncludeKey);
    forall e | e in r.effects
      ensures e.StopDb? &&
        ((instances.Success? && exists i :: 0 <= i < |instances.value| && StopsItem(Instance, instances.value[i], LegacyIncludeKey, e)) ||
         (clusters.Success? && exists i :: 0 <= i < |clusters.value| && StopsItem(Cluster, clusters.value[i], LegacyIncludeKey, e)))
    {
      StopTaggedRdsRequests(instances, clusters, LegacyIncludeKey, e);
    }
    r
  }

  /** No configured tag key is the legacy one: the prefixed key ends in
      "ass:rds:include", which has a colon where the legacy key has an
      underscore, and neither is the stack-wide key. */
  lemma IncludeKeysDiffer(cfg: Config)
    ensures cfg.FullAssTag(IncludeTag) != LegacyIncludeKey
    ensures cfg.FullAssTag(IncludeTag) != CfnStacksKey
  {
    var k := cfg.FullAssTag(IncludeTag);
    var n := |cfg.assTagPrefix|;
    assert k[n + 3] == IncludeTag[3] == ':';
    assert LegacyIncludeKey[3] == '_';
    assert CfnStacksKey[|CfnStacksKey| - 1] == 's';
    assert k[|k| - 1] == 'e';
  }

  /** An available instance or cluster tagged only with the configured
      include key is stopped by aws-ass-stop.py and left running by the
      legacy script. */
  lemma LegacyIgnoresConfiguredIncludeTag(cfg: Config, kind: RdsKind, item: RdsItem)
    requires item.includeTags == TagCalls(Some([Tag(cfg.FullAssTag(IncludeTag), "yes")]), Some([Tag(cfg.FullAssTag(IncludeTag), "yes")]))
    requires item.status == "available" && !(kind == Instance && item.clusterId.Some?)
    ensures Decide(kind, item, cfg.FullAssTag(IncludeTag), "available") == Act
    ensures Decide(kind, item, LegacyIncludeKey, "available") == SkipUntagged
  {
    IncludeKeysDiffer(cfg);
  }

  /** What the AWS side answers during one legacy run. */
  datatype LegacyInputs = LegacyInputs(
    bucketListing: Result<seq<string>>, bucketCreation: Outcome,
    stacks: Result<seq<StackDescription>>, loadBalancers: Result<seq<LoadBalancer>>, buckets: Result<seq<S3Bucket>>,
    checkTag: S3Bucket -> Result<bool>)

  /** `main` of the legacy script: the state bucket, then the
      CloudFormation path; an exception is re-raised. */
  function LegacyRun(aws: Aws, inputs: LegacyInputs): Run
    reads aws
  {
    var bucket := StateBucketOf(aws);
    AndThen(aws.CreateStateBucket(bucket, inputs.bucketListing, inputs.bucketCreation),
            LegacyCfnRun(bucket, inputs.stacks, inputs.loadBalancers, inputs.buckets, inputs.checkTag))
  }

  /** A legacy run creates at most the state bucket and otherwise only
      saves state, disables access logs and empties buckets. */
  lemma LegacyRunDestroysNothing(aws: Aws, inputs: LegacyInputs)
    ensures forall e :: e in LegacyRun(aws, inputs).effects ==>
      e == CreateBucket(StateBucketOf(aws), aws.region) || e.SaveState? || e.DisableAccessLogs? || e.EmptyBucket?
  {
    var bucket := StateBucketOf(aws);
    LegacyCfnRequests(bucket, inputs.stacks, inputs.loadBalancers, inputs.buckets, inputs.checkTag);
  }

  method LegacyMain(aws: Aws, inputs: LegacyInputs) returns (run: Run)
    ensures run == LegacyRun(aws, inputs)
  {
    var bucket := StateBucketOf(aws);
    run := aws.CreateStateBucket(bucket, inputs.bucketListing, inputs.bucketCreation);
    if run.outcome.Raise? {
      return;
    }
    var cfn := LegacyDeleteTaggedCloudformationStacks(bucket, inputs.stacks, inputs.loadBalancers, inputs.buckets, inputs.checkTag);
    run := Then(run.effects, cfn);
  }
}

/** aws-ass-stop.py: saves and deletes the tagged CloudFormation stacks,
    saves and terminates the tagged Beanstalk environments and stops the
    tagged RDS resources. Listings and per-resource answers of the SDK are
    inputs; the requests the script sends are the effects of each Run. */
module AssStop {
  import opened Common
  import opened Tags
  import opened Ordering
  import opened Effects
  import opened AssConfig
  import opened AssAws
  import opened Rds
  import opened Discovery

  const AccessLogBucketKey: string := "access_logs.s3.bucket"
  const CleanBucketTag: string := "ass:s3:clean-bucket-on-stop"

  // ---------------------------------------------------------------------
  // get_stacknames_and_deletionorder
  // ---------------------------------------------------------------------

  /** One entry of describe_stacks: a stack without Tags has the empty list
      here, which the loop treats the same way. */
  datatype StackDescription = StackDescription(
    name: string, id: string, tags: seq<Tag>, parentId: Option<string>, parameters: Option<seq<Parameter>>)

  /** `is_nested_stack`: the entry has a ParentId. */
  predicate IsNestedStack(s: StackDescription) {
    s.parentId.Some?
  }

  function ParametersOrEmpty(p: Option<seq<Parameter>>): seq<Parameter> {
    if p.Some? then p.value else []
  }

  /** The records the loop builds for stack `s`, one per order value. */
  function StackRecordsFor(s: StackDescription, orders: seq<int>): (rs: seq<StackRecord>)
    ensures |rs| == |orders|
    ensures forall k :: 0 <= k < |orders| ==>
      rs[k] == StackRecord(s.name, s.id, orders[k], ParametersOrEmpty(s.parameters))
  {
    if orders == [] then []
    else StackRecordsFor(s, orders[..|orders| - 1]) + [StackRecord(s.name, s.id, orders[|orders| - 1], ParametersOrEmpty(s.parameters))]
  }

  lemma {:induction false} StackRecordsForMember(s: StackDescription, orders: seq<int>, r: StackRecord)
    requires r in StackRecordsFor(s, orders)
    ensures r == StackRecord(s.name, s.id, r.order, ParametersOrEmpty(s.parameters)) && r.order in orders
  {
    var m :| 0 <= m < |orders| && StackRecordsFor(s, orders)[m] == r;
    assert orders[m] in orders;
  }

  /** The inner loop for one stack: every `stack_deletion_order` tag is
      parsed (also on a nested stack), and each positive value of a stack
      that is not nested yields a record. */
  function StackScan(s: StackDescription): Scan<StackRecord> {
    var scan := ScanOrders(s.tags, StackOrderKey, ParseInt);
    Scan(if IsNestedStack(s) then [] else StackRecordsFor(s, scan.found), scan.error)
  }

  /** Some tag keyed `key` in `tags` has a value int() reads as `v`. */
  predicate OrderTag(tags: seq<Tag>, key: string, v: int) {
    exists k :: 0 <= k < |tags| && tags[k].key == key && ParseInt(tags[k].value) == Some(v)
  }

  /** Some tag keyed `key` in `tags` has a value int() rejects. */
  predicate BadOrderTag(tags: seq<Tag>, key: string) {
    exists k :: 0 <= k < |tags| && tags[k].key == key && ParseInt(tags[k].value).None?
  }

  /** `r` is a record the loop builds for stack `s`. */
  predicate RecordOfStack(s: StackDescription, r: StackRecord) {
    !IsNestedStack(s) && r.name == s.name && r.id == s.id && r.parameters == ParametersOrEmpty(s.parameters) &&
    r.order > 0 && OrderTag(s.tags, StackOrderKey, r.order)
  }

  /** Every discovered record belongs to a listed stack without ParentId
      and carries a positive `stack_deletion_order` value of that stack,
      its id and its Parameters (or [] when it has none). */
  lemma {:induction false} StackDiscoverySound(stacks: seq<StackDescription>, r: StackRecord)
    requires r in Discover(stacks, StackScan).found
    ensures exists i :: 0 <= i < |stacks| && RecordOfStack(stacks[i], r)
  {
    var i := DiscoverSound(stacks, StackScan, r);
    var s := stacks[i];
    StackRecordsForMember(s, ScanOrders(s.tags, StackOrderKey, ParseInt).found, r);
    ScanOrdersFoundSound(s.tags, StackOrderKey, ParseInt);
    assert RecordOfStack(s, r);
  }

  /** A discovery that raised nothing found every positive
      `stack_deletion_order` tag of every stack without ParentId. */
  lemma {:induction false} StackDiscoveryComplete(stacks: seq<StackDescription>, i: nat, k: nat)
    requires Discover(stacks, StackScan).error.None?
    requires i < |stacks| && !IsNestedStack(stacks[i])
    requires k < |stacks[i].tags| && stacks[i].tags[k].key == StackOrderKey
    ensures ParseInt(stacks[i].tags[k].value).Some?
    ensures var v := ParseInt(stacks[i].tags[k].value).value;
      v > 0 ==> StackRecord(stacks[i].name, stacks[i].id, v, ParametersOrEmpty(stacks[i].parameters)) in Discover(stacks, StackScan).found
  {
    var s := stacks[i];
    DiscoverComplete(stacks, StackScan, i);
    ScanOrdersComplete(s.tags, StackOrderKey, ParseInt);
    var v := ParseInt(s.tags[k].value).value;
    if v > 0 {
      var found := ScanOrders(s.tags, StackOrderKey, ParseInt).found;
      var m :| 0 <= m < |found| && found[m] == v;
      assert StackRecordsFor(s, found)[m] in StackScan(s).found;
    }
  }

  /** A discovery that raised met a `stack_deletion_order` tag whose value
      is not an integer: int() raised ValueError. */
  lemma {:induction false} StackDiscoveryError(stacks: seq<StackDescription>)
    requires Discover(stacks, StackScan).error.Some?
    ensures Discover(stacks, StackScan).error.value.ValueError?
    ensures exists i :: 0 <= i < |stacks| && BadOrderTag(stacks[i].tags, StackOrderKey)
  {
    DiscoverErrorWitness(stacks, StackScan);
    var i :| 0 <= i < |stacks| && StackScan(stacks[i]).error == Discover(stacks, StackScan).error;
    ScanOrdersErrorWitness(stacks[i].tags, StackOrderKey, ParseInt);
    ScanOrdersErrorIsValueError(stacks[i].tags, StackOrderKey, ParseInt);
  }

  lemma {:induction false} ScanOrdersErrorIsValueError(tags: seq<Tag>, key: string, parse: string -> Option<int>)
    ensures ScanOrders(tags, key, parse).error.Some? ==> ScanOrders(tags, key, parse).error.value.ValueError?
  {
    if tags != [] {
      ScanOrdersErrorIsValueError(tags[..|tags| - 1], key, parse);
    }
  }

  lemma {:induction false} StackRecordsForSnoc(s: StackDescription, orders: seq<int>, v: int)
    ensures StackRecordsFor(s, orders + [v]) == StackRecordsFor(s, orders) + [StackRecord(s.name, s.id, v, ParametersOrEmpty(s.parameters))]
  {
    assert (orders + [v])[..|orders|] == orders;
  }

  lemma {:induction false} StackSavesSnoc(bucket: string, records: seq<StackRecord>, r: StackRecord)
    ensures StackSaves(bucket, records + [r]) == StackSaves(bucket, records) + [SaveState(bucket, r.name, StackState(r))]
  {
    assert (records + [r])[..|records|] == records;
  }

  /** The inner loop for one stack: saves each record to the state bucket
      and then appends it. */
  method ScanStackTags(bucket: string, s: StackDescription) returns (found: seq<StackRecord>, saves: seq<Effect>, error: Option<Raised>)
    ensures Scan(found, error) == StackScan(s)
    ensures saves == StackSaves(bucket, found)
  {
    found, saves, error := [], [], None;
    var orders: seq<int> := [];
    var tags := s.tags;
    for j := 0 to |tags|
      invariant ScanOrders(tags[..j], StackOrderKey, ParseInt) == Scan(orders, None)
      invariant found == if IsNestedStack(s) then [] else StackRecordsFor(s, orders)
      invariant saves == StackSaves(bucket, found)
    {
      var tag := tags[j];
      ScanOrdersStep(tags, StackOrderKey, ParseInt, j);
      if tag.key == StackOrderKey {
        var v := ParseInt(tag.value);
        if v.None? {
          error := Some(ValueError(tag.value));
          ScanOrdersPrefix(tags, StackOrderKey, ParseInt, j + 1);
          return;
        }
        if v.value > 0 {
          StackRecordsForSnoc(s, orders, v.value);
          orders := orders + [v.value];
          if !IsNestedStack(s) {
            var record := StackRecord(s.name, s.id, v.value, ParametersOrEmpty(s.parameters));
            StackSavesSnoc(bucket, found, record);
            saves := saves + [SaveState(bucket, record.name, StackState(record))];
            found := found + [record];
          }
        }
      }
    }
    assert tags[..|tags|] == tags;
  }

  lemma {:induction false} StackSavesConcat(bucket: string, a: seq<StackRecord>, b: seq<StackRecord>)
    ensures StackSaves(bucket, a + b) == StackSaves(bucket, a) + StackSaves(bucket, b)
  {
    if b == [] {
      assert a + b == a;
    } else {
      assert (a + b)[..|a + b| - 1] == a + b[..|b| - 1];
      StackSavesConcat(bucket, a, b[..|b| - 1]);
    }
  }

  /** `get_stacknames_and_deletionorder`: the listing's exception (such as
      NoRegionError) propagates before anything is saved; otherwise the
      records of Discover, each saved under its stack name just before it is
      appended, and the ValueError of a bad tag value after the records
      before it. */
  method GetStackNamesAndDeletionOrder(bucket: string, listing: Result<seq<StackDescription>>)
    returns (result: seq<StackRecord>, run: Run)
    ensures listing.Failure? ==> result == [] && run == Run([], Raise(listing.error))
    ensures listing.Success? ==>
      var d := Discover(listing.value, StackScan);
      result == d.found && run.effects == StackSaves(bucket, result) &&
      run.outcome == (if d.error.Some? then Raise(d.error.value) else Completed)
  {
    if listing.Failure? {
      return [], Run([], Raise(listing.error));
    }
    var stacks := listing.value;
    result := [];
    var saves: seq<Effect> := [];
    for i := 0 to |stacks|
      invariant Discover(stacks[..i], StackScan) == Scan(result, None)
      invariant saves == StackSaves(bucket, result)
    {
      DiscoverNext(stacks, StackScan, i);
      var found, more, error := ScanStackTags(bucket, stacks[i]);
      StackSavesConcat(bucket, result, found);
      result := result + found;
      saves := saves + more;
      if error.Some? {
        DiscoverPrefix(stacks, StackScan, i + 1);
        return result, Run(saves, Raise(error.value));
      }
    }
    assert stacks[..|stacks|] == stacks;
    run := Run(saves, Completed);
  }

  // ---------------------------------------------------------------------
  // get_beanstalk_envnames_and_deletionorder
  // ---------------------------------------------------------------------

  /** One entry of describe_environments, with what list_tags_for_resource
      returns for its ARN (an exception there propagates). */
  datatype EnvDescription = EnvDescription(name: string, id: string, arn: string, tags: Result<seq<Tag>>)

  function EnvRecordsFor(e: EnvDescription, orders: seq<int>): (rs: seq<EnvRecord>)
    ensures |rs| == |orders|
    ensures forall k :: 0 <= k < |orders| ==> rs[k] == EnvRecord(e.name, e.id, e.arn, orders[k])
  {
    if orders == [] then []
    else EnvRecordsFor(e, orders[..|orders| - 1]) + [EnvRecord(e.name, e.id, e.arn, orders[|orders| - 1])]
  }

  lemma {:induction false} EnvRecordsForMember(e: EnvDescription, orders: seq<int>, r: EnvRecord)
    requires r in EnvRecordsFor(e, orders)
    ensures r == EnvRecord(e.name, e.id, e.arn, r.order) && r.order in orders
  {
    var m :| 0 <= m < |orders| && EnvRecordsFor(e, orders)[m] == r;
    assert orders[m] in orders;
  }

  /** The inner loop for one environment. */
  function EnvScan(e: EnvDescription): Scan<EnvRecord> {
    match e.tags
    case Failure(err) => Scan([], Some(err))
    case Success(tags) =>
      var scan := ScanOrders(tags, EnvOrderKey, ParseInt);
      Scan(EnvRecordsFor(e, scan.found), scan.error)
  }

  /** `r` is a record the loop builds for environment `e`. */
  predicate RecordOfEnv(e: EnvDescription, r: EnvRecord) {
    e.tags.Success? && r.name == e.name && r.id == e.id && r.arn == e.arn &&
    r.order > 0 && OrderTag(e.tags.value, EnvOrderKey, r.order)
  }

  /** Every discovered environment record carries a positive
      `environment_deletion_order` value of a listed environment. */
  lemma {:induction false} EnvDiscoverySound(envs: seq<EnvDescription>, r: EnvRecord)
    requires r in Discover(envs, EnvScan).found
    ensures exists i :: 0 <= i < |envs| && RecordOfEnv(envs[i], r)
  {
    var i := DiscoverSound(envs, EnvScan, r);
    var e := envs[i];
    EnvRecordsForMember(e, ScanOrders(e.tags.value, EnvOrderKey, ParseInt).found, r);
    ScanOrdersFoundSound(e.tags.value, EnvOrderKey, ParseInt);
    assert RecordOfEnv(e, r);
  }

  /** A discovery that raised nothing found every positive
      `environment_deletion_order` tag of every environment. */
  lemma {:induction false} EnvDiscoveryComplete(envs: seq<EnvDescription>, i: nat, k: nat)
    requires Discover(envs, EnvScan).error.None?
    requires i < |envs| && envs[i].tags.Success?
    requires k < |envs[i].tags.value| && envs[i].tags.value[k].key == EnvOrderKey
    ensures ParseInt(envs[i].tags.value[k].value).Some?
    ensures var v := ParseInt(envs[i].tags.value[k].value).value;
      v > 0 ==> EnvRecord(envs[i].name, envs[i].id, envs[i].arn, v) in Discover(envs, EnvScan).found
  {
    var e := envs[i];
    DiscoverComplete(envs, EnvScan, i);
    ScanOrdersComplete(e.tags.value, EnvOrderKey, ParseInt);
    var v := ParseInt(e.tags.value[k].value).value;
    if v > 0 {
      var found := ScanOrders(e.tags.value, EnvOrderKey, ParseInt).found;
      var m :| 0 <= m < |found| && found[m] == v;
      assert EnvRecordsFor(e, found)[m] in EnvScan(e).found;
    }
  }

  lemma {:induction false} EnvRecordsForSnoc(e: EnvDescription, orders: seq<int>, v: int)
    ensures EnvRecordsFor(e, orders + [v]) == EnvRecordsFor(e, orders) + [EnvRecord(e.name, e.id, e.arn, v)]
  {
    assert (orders + [v])[..|orders|] == orders;
  }

  method ScanEnvTags(e: EnvDescription) returns (found: seq<EnvRecord>, error: Option<Raised>)
    ensures Scan(found, error) == EnvScan(e)
  {
    if e.tags.Failure? {
      return [], Some(e.tags.error);
    }
    var tags := e.tags.value;
    found, error := [], None;
    var orders: seq<int> := [];
    for j := 0 to |tags|
      invariant ScanOrders(tags[..j], EnvOrderKey, ParseInt) == Scan(orders, None)
      invariant found == EnvRecordsFor(e, orders)
    {
      var tag := tags[j];
      ScanOrdersStep(tags, EnvOrderKey, ParseInt, j);
      if tag.key == EnvOrderKey {
        var v := ParseInt(tag.value);
        if v.None? {
          error := Some(ValueError(tag.value));
          ScanOrdersPrefix(tags, EnvOrderKey, ParseInt, j + 1);
          return;
        }
        if v.value > 0 {
          EnvRecordsForSnoc(e, orders, v.value);
          orders := orders + [v.value];
          found := found + [EnvRecord(e.name, e.id, e.arn, v.value)];
        }
      }
    }
    assert tags[..|tags|] == tags;
    assert EnvScan(e) == Scan(EnvRecordsFor(e, orders), None);
  }

  /** `get_beanstalk_envnames_and_deletionorder`: nothing is saved here. */
  method GetBeanstalkEnvNamesAndDeletionOrder(listing: Result<seq<EnvDescription>>)
    returns (result: seq<EnvRecord>, outcome: Outcome)
    ensures listing.Failure? ==> result == [] && outcome == Raise(listing.error)
    ensures listing.Success? ==>
      var d := Discover(listing.value, EnvScan);
      result == d.found && outcome == (if d.error.Some? then Raise(d.error.value) else Completed)
  {
    if listing.Failure? {
      return [], Raise(listing.error);
    }
    var envs := listing.value;
    result := [];
    for i := 0 to |envs|
      invariant Discover(envs[..i], EnvScan) == Scan(result, None)
    {
      DiscoverNext(envs, EnvScan, i);
      var found, error := ScanEnvTags(envs[i]);
      result := result + found;
      if error.Some? {
        DiscoverPrefix(envs, EnvScan, i + 1);
        return result, Raise(error.value);
      }
    }
    assert envs[..|envs|] == envs;
    outcome := Completed;
  }

  // ---------------------------------------------------------------------
  // Pre-deletion tasks: load balancer access log buckets, tagged buckets
  // ---------------------------------------------------------------------

  /** One entry of describe_load_balancer_attributes. */
  datatype Attribute = Attribute(key: string, value: string)

  /** The attributes keyed `access_logs.s3.bucket`, in order: the filter of
      `get_lb_access_log_bucket`. */
  function AccessLogAttributes(attrs: seq<Attribute>): seq<Attribute> {
    if attrs == [] then []
    else (if attrs[0].key == AccessLogBucketKey then [attrs[0]] else []) + AccessLogAttributes(attrs[1..])
  }

  /** `get_lb_access_log_bucket`: the Value of the first filtered
      attribute, or "" when the filter keeps none. */
  function LbAccessLogBucket(attrs: seq<Attribute>): (bucket: string)
    ensures (forall i :: 0 <= i < |attrs| ==> attrs[i].key != AccessLogBucketKey) ==> bucket == ""
  {
    var kept := AccessLogAttributes(attrs);
    AccessLogAttributesNone(attrs);
    if |kept| > 0 then kept[0].value else ""
  }

  lemma {:induction false} AccessLogAttributesNone(attrs: seq<Attribute>)
    ensures (forall i :: 0 <= i < |attrs| ==> attrs[i].key != AccessLogBucketKey) <==> AccessLogAttributes(attrs) == []
  {
    if attrs != [] {
      AccessLogAttributesNone(attrs[1..]);
      if forall i :: 0 <= i < |attrs| - 1 ==> attrs[1..][i].key != AccessLogBucketKey {
        assert forall i :: 1 <= i < |attrs| ==> attrs[i] == attrs[1..][i - 1];
      } else {
        var i :| 0 <= i < |attrs| - 1 && attrs[1..][i].key == AccessLogBucketKey;
        assert attrs[i + 1].key == AccessLogBucketKey;
      }
    }
  }

  /** The bucket read for a load balancer is the Value of the first
      attribute keyed `access_logs.s3.bucket`: the attribute at `i` is the
      first such one exactly when the result is its Value and none before
      it has the key. */
  lemma {:induction false} LbAccessLogBucketFirst(attrs: seq<Attribute>, i: nat)
    requires i < |attrs| && attrs[i].key == AccessLogBucketKey
    requires forall j :: 0 <= j < i ==> attrs[j].key != AccessLogBucketKey
    ensures LbAccessLogBucket(attrs) == attrs[i].value
  {
    if i > 0 {
      assert forall j :: 0 <= j < i - 1 ==> attrs[1..][j] == attrs[j + 1];
      LbAccessLogBucketFirst(attrs[1..], i - 1);
    }
  }

  /** A load balancer with the answers the SDK gives about it: its
      attributes (or the exception describing them raised), how disabling
      its access logs went and how emptying its log bucket went. */
  datatype LoadBalancer = LoadBalancer(arn: string, attributes: Result<seq<Attribute>>, disabling: Outcome, emptying: Outcome)

  /** One iteration of the loop of `empty_lb_access_log_buckets`: the log
      bucket is read, access logs are disabled, and a non-empty bucket name
      is emptied under the `empty_bucket` policy. */
  function LbStep(lb: LoadBalancer): (r: Run)
    ensures forall e :: e in r.effects ==>
      (e == DisableAccessLogs(lb.arn) ||
       (e.EmptyBucket? && e.name != "" && lb.attributes.Success? && e.name == LbAccessLogBucket(lb.attributes.value)))
    ensures r.outcome.Completed? ==> DisableAccessLogs(lb.arn) in r.effects
  {
    if lb.attributes.Failure? then Run([], Raise(lb.attributes.error))
    else
      var bucket := LbAccessLogBucket(lb.attributes.value);
      var disable := [DisableAccessLogs(lb.arn)];
      if lb.disabling.Raise? then Run(disable, lb.disabling)
      else if bucket == "" then Run(disable, Completed)
      else
        var empty := disable + [EmptyBucket(bucket)];
        match EmptyBucketPolicy(lb.emptying)
        case Reraised(err) => Run(empty, Raise(err))
        case _ => Run(empty, Completed)
  }

  /** The loop of `empty_lb_access_log_buckets`: one step per load
      balancer; the first exception ends the loop. */
  function LbRun(lbs: seq<LoadBalancer>): (r: Run)
    ensures forall e :: e in r.effects ==> e.DisableAccessLogs? || (e.EmptyBucket? && e.name != "")
    decreases |lbs|
  {
    if lbs == [] then Run([], Completed)
    else AndThen(LbStep(lbs[0]), LbRun(lbs[1..]))
  }

  /** Every load balancer gets its access logs disabled when the loop
      completes, and every bucket emptied is the log bucket of one of them. */
  lemma {:induction false} LbRunCoverage(lbs: seq<LoadBalancer>)
    ensures LbRun(lbs).outcome.Completed? ==> forall i :: 0 <= i < |lbs| ==> DisableAccessLogs(lbs[i].arn) in LbRun(lbs).effects
    ensures forall e :: e in LbRun(lbs).effects && e.EmptyBucket? ==>
      exists i :: 0 <= i < |lbs| && lbs[i].attributes.Success? && e.name == LbAccessLogBucket(lbs[i].attributes.value)
    decreases |lbs|
  {
    if lbs != [] {
      var rest := lbs[1..];
      LbRunCoverage(rest);
      var step := LbStep(lbs[0]);
      var r := LbRun(lbs);
      assert r == AndThen(step, LbRun(rest));
      if r.outcome.Completed? {
        assert r.effects == step.effects + LbRun(rest).effects;
        forall i | 0 <= i < |lbs|
          ensures DisableAccessLogs(lbs[i].arn) in r.effects
        {
          if i > 0 {
            assert rest[i - 1] == lbs[i];
          }
        }
      }
      forall e | e in r.effects && e.EmptyBucket?
        ensures exists i :: 0 <= i < |lbs| && lbs[i].attributes.Success? && e.name == LbAccessLogBucket(lbs[i].attributes.value)
      {
        if e in step.effects {
          assert lbs[0].attributes.Success? && e.name == LbAccessLogBucket(lbs[0].attributes.value);
        } else {
          assert e in LbRun(rest).effects;
          var i :| 0 <= i < |rest| && rest[i].attributes.Success? && e.name == LbAccessLogBucket(rest[i].attributes.value);
          assert lbs[i + 1] == rest[i];
        }
      }
    }
  }

  /** The body of the loop of `empty_lb_access_log_buckets` for one load
      balancer. */
  method DisableAndEmpty(lb: LoadBalancer) returns (step: Run)
    ensures step == LbStep(lb)
  {
    if lb.attributes.Failure? {
      return Run([], Raise(lb.attributes.error));
    }
    var bucket := LbAccessLogBucket(lb.attributes.value);
    var effects := [DisableAccessLogs(lb.arn)];
    if lb.disabling.Raise? {
      return Run(effects, lb.disabling);
    }
    if bucket != "" {
      effects := effects + [EmptyBucket(bucket)];
      var emptied := EmptyBucketPolicy(lb.emptying);
      if emptied.Reraised? {
        return Run(effects, Raise(emptied.error));
      }
    }
    step := Run(effects, Completed);
  }

  /** `empty_lb_access_log_buckets`: the listing's exception propagates. */
  method EmptyLbAccessLogBuckets(listing: Result<seq<LoadBalancer>>) returns (run: Run)
    ensures listing.Failure? ==> run == Run([], Raise(listing.error))
    ensures listing.Success? ==> run == LbRun(listing.value)
  {
    if listing.Failure? {
      return Run([], Raise(listing.error));
    }
    var lbs := listing.value;
    var effects: seq<Effect> := [];
    var i := 0;
    while i < |lbs|
      invariant 0 <= i <= |lbs|
      invariant LbRun(lbs) == Then(effects, LbRun(lbs[i..]))
    {
      assert lbs[i..][1..] == lbs[i + 1..];
      var step := DisableAndEmpty(lbs[i]);
      ThenAndThen(effects, step, LbRun(lbs[i + 1..]));
      effects := effects + step.effects;
      if step.outcome.Raise? {
        return Run(effects, step.outcome);
      }
      i := i + 1;
    }
    run := Run(effects, Completed);
  }

  /** A bucket from list_buckets, with what get_bucket_tagging returns for
      it and how emptying it would go. */
  datatype S3Bucket = S3Bucket(name: string, tagging: S3TagFetch, emptying: Outcome)

  /** The loop of `empty_tagged_s3_buckets`, for a tag test `marked` that
      answers True/False or raises: a marked bucket is emptied under the
      `empty_bucket` policy; the first exception ends the loop. */
  function CleanRun(buckets: seq<S3Bucket>, marked: S3Bucket -> Result<bool>): (r: Run)
    ensures forall e :: e in r.effects ==> e.EmptyBucket?
    ensures forall e :: e in r.effects ==> exists i :: 0 <= i < |buckets| && e.name == buckets[i].name && marked(buckets[i]) == Success(true)
    decreases |buckets|
  {
    if buckets == [] then Run([], Completed)
    else
      var b := buckets[0];
      var rest := CleanRun(buckets[1..], marked);
      assert forall e :: e in rest.effects ==> exists i :: 0 <= i < |buckets| && e.name == buckets[i].name && marked(buckets[i]) == Success(true) by {
        forall e | e in rest.effects
          ensures exists i :: 0 <= i < |buckets| && e.name == buckets[i].name && marked(buckets[i]) == Success(true)
        {
          var i :| 0 <= i < |buckets| - 1 && e.name == buckets[1..][i].name && marked(buckets[1..][i]) == Success(true);
          assert buckets[i + 1] == buckets[1..][i];
        }
      }
      match marked(b)
      case Failure(err) => Run([], Raise(err))
      case Success(yes) =>
        if !yes then rest
        else match EmptyBucketPolicy(b.emptying)
          case Reraised(err) => Run([EmptyBucket(b.name)], Raise(err))
          case _ => Then([EmptyBucket(b.name)], rest)
  }

  /** A cleaning loop that completed emptied every marked bucket. */
  lemma {:induction false} CleanRunComplete(buckets: seq<S3Bucket>, marked: S3Bucket -> Result<bool>, i: nat)
    requires i < |buckets| && marked(buckets[i]) == Success(true)
    requires CleanRun(buckets, marked).outcome.Completed?
    ensures EmptyBucket(buckets[i].name) in CleanRun(buckets, marked).effects
    decreases |buckets|
  {
    var b := buckets[0];
    var rest := CleanRun(buckets[1..], marked);
    var r := CleanRun(buckets, marked);
    assert marked(b).Success?;
    if marked(b).value {
      assert !EmptyBucketPolicy(b.emptying).Reraised?;
      assert r == Then([EmptyBucket(b.name)], rest);
    } else {
      assert r == rest;
    }
    if i > 0 {
      assert buckets[1..][i - 1] == buckets[i];
      CleanRunComplete(buckets[1..], marked, i - 1);
    }
  }

  /** The tag test of the stop script: `s3_has_tag` with the prefixed
      clean-bucket key and value "yes", read for its truth value. */
  function S3Marked(b: S3Bucket, cleanKey: string): (r: Result<bool>)
    ensures r == Success(true) <==> b.tagging.TagSet? && Tag(cleanKey, "yes") in b.tagging.tags
    ensures r.Failure? <==> b.tagging.S3OtherError?
  {
    match S3HasTag(b.tagging, cleanKey, "yes")
    case Failure(err) => Failure(err)
    case Success(answer) => Success(Truthy(answer))
  }

  /** `empty_tagged_s3_buckets`: the listing's exception propagates. */
  method EmptyTaggedS3Buckets(listing: Result<seq<S3Bucket>>, marked: S3Bucket -> Result<bool>) returns (run: Run)
    ensures listing.Failure? ==> run == Run([], Raise(listing.error))
    ensures listing.Success? ==> run == CleanRun(listing.value, marked)
  {
    if listing.Failure? {
      return Run([], Raise(listing.error));
    }
    var buckets := listing.value;
    var effects: seq<Effect> := [];
    var i := 0;
    while i < |buckets|
      invariant 0 <= i <= |buckets|
      invariant CleanRun(buckets, marked) == Then(effects, CleanRun(buckets[i..], marked))
    {
      var b := buckets[i];
      assert buckets[i..][1..] == buckets[i + 1..];
      var m := marked(b);
      if m.Failure? {
        return Run(effects, Raise(m.error));
      }
      if m.value {
        effects := effects + [EmptyBucket(b.name)];
        var emptied := EmptyBucketPolicy(b.emptying);
        if emptied.Reraised? {
          return Run(effects, Raise(emptied.error));
        }
      }
      i := i + 1;
    }
    run := Run(effects, Completed);
  }

  /** `do_pre_deletion_tasks`: load balancer log buckets, then tagged
      buckets. */
  function PreDeletion(lbs: Result<seq<LoadBalancer>>, buckets: Result<seq<S3Bucket>>, marked: S3Bucket -> Result<bool>): (r: Run)
    ensures forall e :: e in r.effects ==> e.DisableAccessLogs? || e.EmptyBucket?
  {
    var first := if lbs.Failure? then Run([], Raise(lbs.error)) else LbRun(lbs.value);
    var second := if buckets.Failure? then Run([], Raise(buckets.error)) else CleanRun(buckets.value, marked);
    AndThen(first, second)
  }

  method DoPreDeletionTasks(lbs: Result<seq<LoadBalancer>>, buckets: Result<seq<S3Bucket>>, marked: S3Bucket -> Result<bool>)
    returns (run: Run)
    ensures run == PreDeletion(lbs, buckets, marked)
  {
    run := EmptyLbAccessLogBuckets(lbs);
    if run.outcome.Raise? {
      return;
    }
    var second := EmptyTaggedS3Buckets(buckets, marked);
    run := Then(run.effects, second);
  }

  // ---------------------------------------------------------------------
  // Deleting the stacks
  // ---------------------------------------------------------------------

  /** The deletion loop over records already in deletion order:
      `delete_stack` then its waiter; a failed waiter (`deletion` of the
      stack name raised) ends the loop. */
  function DeleteRun(records: seq<StackRecord>, deletion: string -> Outcome): (r: Run)
    ensures |r.effects| <= |records|
    ensures r.outcome.Completed? ==> |r.effects| == |records|
    decreases |records|
  {
    if records == [] then Run([], Completed)
    else
      var step := [DeleteStack(records[0].name)];
      if deletion(records[0].name).Raise? then Run(step, deletion(records[0].name))
      else Then(step, DeleteRun(records[1..], deletion))
  }

  /** The k-th request of the deletion loop deletes the k-th record, and
      the loop stops exactly at the first stack whose deletion failed. */
  lemma {:induction false} DeleteRunInOrder(records: seq<StackRecord>, deletion: string -> Outcome, k: nat)
    requires k < |DeleteRun(records, deletion).effects|
    ensures DeleteRun(records, deletion).effects[k] == DeleteStack(records[k].name)
    ensures k < |DeleteRun(records, deletion).effects| - 1 ==> deletion(records[k].name).Completed?
    ensures DeleteRun(records, deletion).outcome.Raise? && k == |DeleteRun(records, deletion).effects| - 1 ==>
      DeleteRun(records, deletion).outcome == deletion(records[k].name)
    decreases k
  {
    if k > 0 {
      DeleteRunInOrder(records[1..], deletion, k - 1);
    }
  }

  method DeleteStacks(records: seq<StackRecord>, deletion: string -> Outcome) returns (run: Run)
    ensures run == DeleteRun(records, deletion)
  {
    var effects: seq<Effect> := [];
    var i := 0;
    while i < |records|
      invariant 0 <= i <= |records|
      invariant DeleteRun(records, deletion) == Then(effects, DeleteRun(records[i..], deletion))
    {
      var name := records[i].name;
      assert records[i..][1..] == records[i + 1..];
      effects := effects + [DeleteStack(name)];
      var o := deletion(name);
      if o.Raise? {
        return Run(effects, o);
      }
      i := i + 1;
    }
    run := Run(effects, Completed);
  }

  /** `delete_tagged_cloudformation_stacks`: discovery (which saves every
      record), the pre-deletion tasks, then the deletion of the records in
      ascending `stack_deletion_order`. */
  function StopCfnRun(bucket: string, stacks: Result<seq<StackDescription>>, lbs: Result<seq<LoadBalancer>>,
                      buckets: Result<seq<S3Bucket>>, marked: S3Bucket -> Result<bool>, deletion: string -> Outcome): Run
  {
    if stacks.Failure? then Run([], Raise(stacks.error))
    else
      var d := Discover(stacks.value, StackScan);
      var discovery := Run(StackSaves(bucket, d.found), if d.error.Some? then Raise(d.error.value) else Completed);
      AndThen(AndThen(discovery, PreDeletion(lbs, buckets, marked)), DeleteRun(Sort(d.found, StackOrder, false), deletion))
  }

  method DeleteTaggedCloudformationStacks(bucket: string, stacks: Result<seq<StackDescription>>, lbs: Result<seq<LoadBalancer>>,
                                          buckets: Result<seq<S3Bucket>>, marked: S3Bucket -> Result<bool>, deletion: string -> Outcome)
    returns (run: Run)
    ensures run == StopCfnRun(bucket, stacks, lbs, buckets, marked, deletion)
  {
    var result;
    result, run := GetStackNamesAndDeletionOrder(bucket, stacks);
    if run.outcome.Raise? {
      return;
    }
    var pre := DoPreDeletionTasks(lbs, buckets, marked);
    run := Then(run.effects, pre);
    if run.outcome.Raise? {
      return;
    }
    var deletes := DeleteStacks(Sort(result, StackOrder, false), deletion);
    run := Then(run.effects, deletes);
  }

  /** Stacks are deleted in non-decreasing `stack_deletion_order`: of two
      delete_stack requests of the loop, the earlier one names a record whose
      order is not above the later one's. */
  lemma {:induction false} DeletionAscending(records: seq<StackRecord>, deletion: string -> Outcome, k1: nat, k2: nat)
    requires k1 < k2 < |DeleteRun(Sort(records, StackOrder, false), deletion).effects|
    ensures var sorted := Sort(records, StackOrder, false);
      var es := DeleteRun(sorted, deletion).effects;
      es[k1] == DeleteStack(sorted[k1].name) && es[k2] == DeleteStack(sorted[k2].name) &&
      sorted[k1].order <= sorted[k2].order && sorted[k1] in records && sorted[k2] in records
  {
    var sorted := Sort(records, StackOrder, false);
    DeleteRunInOrder(sorted, deletion, k1);
    DeleteRunInOrder(sorted, deletion, k2);
    assert InOrder(StackOrder(sorted[k1]), StackOrder(sorted[k2]), false);
    assert sorted[k1] in multiset(records) && sorted[k2] in multiset(records);
  }

  /** The stage of a request of the CloudFormation path. */
  function CfnStage(e: Effect): int {
    if e.SaveState? then 0 else if e.DisableAccessLogs? || e.EmptyBucket? then 1 else 2
  }

  /** The requests of `es` never go back to an earlier stage. */
  ghost predicate Staged(es: seq<Effect>) {
    forall i, j :: 0 <= i < j < |es| ==> CfnStage(es[i]) <= CfnStage(es[j])
  }

  /** The three parts of the CloudFormation path, in the order it issues
      them; every run of the path issues a prefix of these. */
  function CfnParts(bucket: string, stacks: seq<StackDescription>, lbs: Result<seq<LoadBalancer>>,
                    buckets: Result<seq<S3Bucket>>, marked: S3Bucket -> Result<bool>, deletion: string -> Outcome): (parts: (seq<Effect>, seq<Effect>, seq<Effect>))
    ensures var (a, b, c) := parts;
      (forall e :: e in a ==> CfnStage(e) == 0) && (forall e :: e in b ==> CfnStage(e) == 1)
  {
    var d := Discover(stacks, StackScan);
    (StackSaves(bucket, d.found), PreDeletion(lbs, buckets, marked).effects, DeleteRun(Sort(d.found, StackOrder, false), deletion).effects)
  }

  lemma {:induction false} StopCfnPrefix(bucket: string, stacks: seq<StackDescription>, lbs: Result<seq<LoadBalancer>>,
                      buckets: Result<seq<S3Bucket>>, marked: S3Bucket -> Result<bool>, deletion: string -> Outcome)
    ensures var (a, b, c) := CfnParts(bucket, stacks, lbs, buckets, marked, deletion);
      var es := StopCfnRun(bucket, Success(stacks), lbs, buckets, marked, deletion).effects;
      es == a || es == a + b || es == a + b + c
  {
  }

  lemma {:induction false} DeleteRunStage(records: seq<StackRecord>, deletion: string -> Outcome, e: Effect)
    requires e in DeleteRun(records, deletion).effects
    ensures e.DeleteStack? && CfnStage(e) == 2
  {
    var k :| 0 <= k < |DeleteRun(records, deletion).effects| && DeleteRun(records, deletion).effects[k] == e;
    DeleteRunInOrder(records, deletion, k);
  }

  lemma {:induction false} StagedParts(a: seq<Effect>, b: seq<Effect>, c: seq<Effect>)
    requires forall e :: e in a ==> CfnStage(e) == 0
    requires forall e :: e in b ==> CfnStage(e) == 1
    requires forall e :: e in c ==> CfnStage(e) == 2
    ensures Staged(a) && Staged(a + b) && Staged(a + b + c)
  {
    var all := a + b + c;
    forall i, j | 0 <= i < j < |all|
      ensures CfnStage(all[i]) <= CfnStage(all[j])
    {
      assert all[i] in a || all[i] in b || all[i] in c;
      assert i < |a| ==> all[i] in a;
      assert j >= |a| + |b| ==> all[j] in c;
      assert |a| <= i < |a| + |b| ==> all[i] in b;
      assert |a| <= j < |a| + |b| ==> all[j] in b;
      assert j < |a| ==> all[j] in a;
    }
    assert a == all[..|a|] && a + b == all[..|a| + |b|];
  }

  /** The CloudFormation path saves all records before any pre-deletion
      request and finishes those before the first delete_stack. */
  lemma {:induction false} StopCfnStaged(bucket: string, stacks: Result<seq<StackDescription>>, lbs: Result<seq<LoadBalancer>>,
                      buckets: Result<seq<S3Bucket>>, marked: S3Bucket -> Result<bool>, deletion: string -> Outcome)
    ensures Staged(StopCfnRun(bucket, stacks, lbs, buckets, marked, deletion).effects)
  {
    if stacks.Success? {
      var (a, b, c) := CfnParts(bucket, stacks.value, lbs, buckets, marked, deletion);
      var d := Discover(stacks.value, StackScan);
      forall e | e in c
        ensures CfnStage(e) == 2
      {
        DeleteRunStage(Sort(d.found, StackOrder, false), deletion, e);
      }
      StagedParts(a, b, c);
      StopCfnPrefix(bucket, stacks.value, lbs, buckets, marked, deletion);
    }
  }

  /** A trace made of the saves of `found`, then requests that delete
      nothing, then the deletion loop over a permutation of `found`, cut
      anywhere between the parts: every stack it deletes was saved before. */
  lemma {:induction false} SavedBeforeDeletedIn(bucket: string, found: seq<StackRecord>, sorted: seq<StackRecord>, b: seq<Effect>,
                                                deletion: string -> Outcome, es: seq<Effect>, j: nat)
    requires multiset(sorted) == multiset(found)
    requires forall e :: e in b ==> !e.DeleteStack?
    requires var a := StackSaves(bucket, found);
      es == a || es == a + b || es == a + b + DeleteRun(sorted, deletion).effects
    requires j < |es| && es[j].DeleteStack?
    ensures exists r: StackRecord :: r.name == es[j].stackName && SaveState(bucket, r.name, StackState(r)) in es[..j]
  {
    var a := StackSaves(bucket, found);
    var c := DeleteRun(sorted, deletion).effects;
    assert j >= |a| + |b| by {
      if j < |a| {
        assert false;
      } else if j < |a| + |b| {
        assert false;
      }
    }
    assert es == a + b + c;
    var k := j - |a| - |b|;
    assert es[j] == c[k];
    DeleteRunInOrder(sorted, deletion, k);
    var r := sorted[k];
    assert r in multiset(found);
    var i :| 0 <= i < |found| && found[i] == r;
    assert es[i] == a[i];
    assert es[i] in es[..j];
    assert r.name == es[j].stackName;
  }

  /** Every stack the CloudFormation path deletes was saved under its name
      to the state bucket earlier in the same run. */
  lemma {:induction false} StopCfnSavedBeforeDeleted(bucket: string, stacks: Result<seq<StackDescription>>, lbs: Result<seq<LoadBalancer>>,
                                  buckets: Result<seq<S3Bucket>>, marked: S3Bucket -> Result<bool>, deletion: string -> Outcome, j: nat)
    requires j < |StopCfnRun(bucket, stacks, lbs, buckets, marked, deletion).effects|
    requires StopCfnRun(bucket, stacks, lbs, buckets, marked, deletion).effects[j].DeleteStack?
    ensures var es := StopCfnRun(bucket, stacks, lbs, buckets, marked, deletion).effects;
      exists r: StackRecord :: r.name == es[j].stackName && SaveState(bucket, r.name, StackState(r)) in es[..j]
  {
    var es := StopCfnRun(bucket, stacks, lbs, buckets, marked, deletion).effects;
    var d := Discover(stacks.value, StackScan);
    var (a, b, c) := CfnParts(bucket, stacks.value, lbs, buckets, marked, deletion);
    StopCfnPrefix(bucket, stacks.value, lbs, buckets, marked, deletion);
    SavedBeforeDeletedIn(bucket, d.found, Sort(d.found, StackOrder, false), b, deletion, es, j);
  }

  // ---------------------------------------------------------------------
  // Beanstalk environments
  // ---------------------------------------------------------------------

  /** The message of the TypeError raised by calling get_state_bucket_name
      without its two arguments. */
  const MissingArgumentsError: string := "get_state_bucket_name() missing 2 required positional arguments"

  /** `delete_tagged_beanstalk_environments` loop as written: the save
      helper formats its first log message with `get_state_bucket_name()`
      called without arguments, so the first environment raises TypeError
      before anything is saved or terminated. */
  function EnvTerminateRunAsWritten(records: seq<EnvRecord>): (r: Run)
    ensures r.effects == []
    ensures r.outcome.Completed? <==> records == []
  {
    if records == [] then Run([], Completed) else Run([], Raise(TypeError(MissingArgumentsError)))
  }

  /** The same loop with the state bucket named from region and account:
      each environment is saved under its name, then terminated; a failed
      termination ends the loop. */
  function EnvTerminateRun(bucket: string, records: seq<EnvRecord>, termination: string -> Outcome): (r: Run)
    ensures |r.effects| <= 2 * |records|
    ensures r.outcome.Completed? ==> |r.effects| == 2 * |records|
    decreases |records|
  {
    if records == [] then Run([], Completed)
    else
      var e := records[0];
      var step := [SaveState(bucket, e.name, EnvState(e)), TerminateEnvironment(e.name)];
      if termination(e.name).Raise? then Run(step, termination(e.name))
      else Then(step, EnvTerminateRun(bucket, records[1..], termination))
  }

  /** The loop issues a save and a terminate per environment, in order:
      requests 2k and 2k+1 are the save and the termination of record k. */
  lemma {:induction false} EnvTerminateRunPairs(bucket: string, records: seq<EnvRecord>, termination: string -> Outcome, k: nat)
    requires 2 * k < |EnvTerminateRun(bucket, records, termination).effects|
    ensures k < |records| && 2 * k + 1 < |EnvTerminateRun(bucket, records, termination).effects|
    ensures EnvTerminateRun(bucket, records, termination).effects[2 * k] == SaveState(bucket, records[k].name, EnvState(records[k]))
    ensures EnvTerminateRun(bucket, records, termination).effects[2 * k + 1] == TerminateEnvironment(records[k].name)
    decreases k
  {
    if k > 0 {
      EnvTerminateRunPairs(bucket, records[1..], termination, k - 1);
    }
  }

  /** Where the two versions differ: with one environment to delete, the
      code as written raises and terminates nothing, the corrected loop
      saves it and then terminates it. */
  lemma {:induction false} EnvTerminateDiscrepancy(bucket: string, e: EnvRecord)
    ensures EnvTerminateRunAsWritten([e]) == Run([], Raise(TypeError(MissingArgumentsError)))
    ensures EnvTerminateRun(bucket, [e], _ => Completed) ==
      Run([SaveState(bucket, e.name, EnvState(e)), TerminateEnvironment(e.name)], Completed)
  {
    assert [e][1..] == [];
  }

  method TerminateEnvironments(bucket: string, records: seq<EnvRecord>, termination: string -> Outcome) returns (run: Run)
    ensures run == EnvTerminateRun(bucket, records, termination)
  {
    var effects: seq<Effect> := [];
    var i := 0;
    while i < |records|
      invariant 0 <= i <= |records|
      invariant EnvTerminateRun(bucket, records, termination) == Then(effects, EnvTerminateRun(bucket, records[i..], termination))
    {
      var e := records[i];
      assert records[i..][1..] == records[i + 1..];
      effects := effects + [SaveState(bucket, e.name, EnvState(e)), TerminateEnvironment(e.name)];
      var o := termination(e.name);
      if o.Raise? {
        return Run(effects, o);
      }
      i := i + 1;
    }
    run := Run(effects, Completed);
  }

  /** `delete_tagged_beanstalk_environments` (corrected): discovery, then
      save-and-terminate in ascending `environment_deletion_order`. */
  function StopEnvRun(bucket: string, envs: Result<seq<EnvDescription>>, termination: string -> Outcome): Run {
    if envs.Failure? then Run([], Raise(envs.error))
    else
      var d := Discover(envs.value, EnvScan);
      if d.error.Some? then Run([], Raise(d.error.value))
      else EnvTerminateRun(bucket, Sort(d.found, EnvOrder, false), termination)
  }

  method DeleteTaggedBeanstalkEnvironments(bucket: string, envs: Result<seq<EnvDescription>>, termination: string -> Outcome)
    returns (run: Run)
    ensures run == StopEnvRun(bucket, envs, termination)
  {
    var result, outcome := GetBeanstalkEnvNamesAndDeletionOrder(envs);
    if outcome.Raise? {
      return Run([], outcome);
    }
    run := TerminateEnvironments(bucket, Sort(result, EnvOrder, false), termination);
  }

  lemma {:induction false} EnvTerminateRunSavedBefore(bucket: string, records: seq<EnvRecord>, termination: string -> Outcome, j: nat)
    requires j < |EnvTerminateRun(bucket, records, termination).effects|
    requires EnvTerminateRun(bucket, records, termination).effects[j].TerminateEnvironment?
    ensures j > 0 && j / 2 < |records|
    ensures EnvTerminateRun(bucket, records, termination).effects[j - 1] == SaveState(bucket, records[j / 2].name, EnvState(records[j / 2]))
    ensures EnvTerminateRun(bucket, records, termination).effects[j] == TerminateEnvironment(records[j / 2].name)
  {
    var es := EnvTerminateRun(bucket, records, termination).effects;
    var k := j / 2;
    EnvTerminateRunPairs(bucket, records, termination, k);
    assert j == 2 * k + 1 by {
      assert es[2 * k].SaveState?;
    }
  }

  /** Every environment the stop path terminates is a discovered one, saved
      under its name by the request just before. */
  lemma {:induction false} StopEnvSavedBeforeTerminated(bucket: string, envs: Result<seq<EnvDescription>>, termination: string -> Outcome, j: nat)
    requires j < |StopEnvRun(bucket, envs, termination).effects|
    requires StopEnvRun(bucket, envs, termination).effects[j].TerminateEnvironment?
    ensures var es := StopEnvRun(bucket, envs, termination).effects;
      j > 0 && es[j - 1].SaveState? && es[j - 1].key == es[j].envName &&
      es[j - 1].record.EnvState? && es[j - 1].record.env in Discover(envs.value, EnvScan).found
  {
    assert envs.Success? && Discover(envs.value, EnvScan).error.None?;
    var d := Discover(envs.value, EnvScan);
    var sorted := Sort(d.found, EnvOrder, false);
    EnvTerminateRunSavedBefore(bucket, sorted, termination, j);
    assert sorted[j / 2] in multiset(d.found);
  }

  // ---------------------------------------------------------------------
  // main
  // ---------------------------------------------------------------------

  /** Everything `main` needs from AWS besides the two objects. */
  datatype StopInputs = StopInputs(
    bucketListing: Result<seq<string>>, bucketCreation: Outcome,
    stacks: Result<seq<StackDescription>>, loadBalancers: Result<seq<LoadBalancer>>, buckets: Result<seq<S3Bucket>>,
    stackDeletion: string -> Outcome,
    environments: Result<seq<EnvDescription>>, envTermination: string -> Outcome,
    instances: Result<seq<RdsItem>>, clusters: Result<seq<RdsItem>>)

  /** The state bucket name both scripts use: region and account formatted
      with "{}", so a missing region reads "None". */
  function StateBucketOf(aws: Aws): (name: string)
    reads aws
    ensures StartsWith(name, PyStr(aws.region) + "-") && EndsWith(name, StateBucketSuffix)
  {
    Config.StateBucketName(PyStr(aws.region), aws.accountId)
  }

  /** `main` of the stop script with the corrected state-bucket creation and
      environment loop: create the state bucket, then the CloudFormation,
      Beanstalk and RDS paths; the first exception ends the run. */
  function StopRun(cfg: Config, aws: Aws, inputs: StopInputs): Run
    reads cfg, aws
  {
    var bucket := StateBucketOf(aws);
    var cleanKey := cfg.FullAssTag(CleanBucketTag);
    var marked := b => S3Marked(b, cleanKey);
    AndThen(
      AndThen(
        AndThen(
          aws.CreateStateBucket(bucket, inputs.bucketListing, inputs.bucketCreation),
          StopCfnRun(bucket, inputs.stacks, inputs.loadBalancers, inputs.buckets, marked, inputs.stackDeletion)),
        StopEnvRun(bucket, inputs.environments, inputs.envTermination)),
      StopTaggedRdsRun(inputs.instances, inputs.clusters, cfg.FullAssTag(IncludeTag)))
  }

  method StopMain(cfg: Config, aws: Aws, inputs: StopInputs) returns (run: Run)
    ensures run == StopRun(cfg, aws, inputs)
  {
    var bucket := StateBucketOf(aws);
    run := aws.CreateStateBucket(bucket, inputs.bucketListing, inputs.bucketCreation);
    if run.outcome.Raise? {
      return;
    }
    var cleanKey := cfg.FullAssTag(CleanBucketTag);
    var marked := b => S3Marked(b, cleanKey);
    var cfn := DeleteTaggedCloudformationStacks(bucket, inputs.stacks, inputs.loadBalancers, inputs.buckets, marked, inputs.stackDeletion);
    run := Then(run.effects, cfn);
    if run.outcome.Raise? {
      return;
    }
    var envs := DeleteTaggedBeanstalkEnvironments(bucket, inputs.environments, inputs.envTermination);
    run := Then(run.effects, envs);
    if run.outcome.Raise? {
      return;
    }
    var rds := StopTaggedRds(inputs.instances, inputs.clusters, cfg.FullAssTag(IncludeTag));
    run := Then(run.effects, rds);
  }
}

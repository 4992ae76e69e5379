/** The records the scripts persist in the S3 state bucket, and the trace of
    requests a run issues against AWS. Every request the scripts send (a
    put_object, a delete_stack, a stop_db_instance, ...) appears in the trace
    in the order it is issued; the contents of a state bucket are a value
    derived from that trace. */
module Effects {
  import opened Common
  import opened Tags

  /** One entry of a stack's Parameters list. */
  datatype Parameter = Parameter(key: string, value: string)

  /** The dict the stop script builds for a stack and saves as JSON:
      stack_name, stack_id, stack_deletion_order, stack_parameters. */
  datatype StackRecord = StackRecord(name: string, id: string, order: int, parameters: seq<Parameter>)

  /** The dict built for a Beanstalk environment: environment_name,
      environment_id, environment_arn, environment_deletion_order. */
  datatype EnvRecord = EnvRecord(name: string, id: string, arn: string, order: int)

  /** The tag keys whose values give the deletion order, and under which
      the order is kept in the saved dicts. */
  const StackOrderKey: string := "stack_deletion_order"
  const EnvOrderKey: string := "environment_deletion_order"

  /** The sort keys `stack_deletion_order` and `environment_deletion_order`. */
  function StackOrder(r: StackRecord): int {
    r.order
  }

  function EnvOrder(r: EnvRecord): int {
    r.order
  }

  /** A JSON document in the state bucket is one of the two dicts. */
  datatype StateRecord = StackState(stack: StackRecord) | EnvState(env: EnvRecord)

  datatype RdsKind = Instance | Cluster

  /** A request sent to AWS. */
  datatype Effect =
    | SaveState(bucket: string, key: string, record: StateRecord)
    | CreateBucket(name: string, region: Option<string>)
    | DisableAccessLogs(loadBalancer: string)
    | EmptyBucket(name: string)
    | DeleteStack(stackName: string)
    | TerminateEnvironment(envName: string)
    | StopDb(kind: RdsKind, dbId: string)
    | StartDb(kind: RdsKind, dbId: string)
    | WaitDbAvailable(dbId: string)
    | CopyTemplate(templateBucket: string, stackName: string)
    | CreateStack(stackName: string, parameters: seq<Parameter>, tags: seq<Tag>)
    | RebuildEnvironment(envId: string)
    | CreateTemplateBucket(name: string)
    | RemoveTemplateBucket(name: string)
    | RestoreBucket(name: string)

  /** What a phase of a run did: the requests it issued, and whether it
      completed or raised. */
  datatype Run = Run(effects: seq<Effect>, outcome: Outcome)

  /** `prefix` issued first, then `r`. */
  function Then(prefix: seq<Effect>, r: Run): Run {
    Run(prefix + r.effects, r.outcome)
  }

  /** `a`, then `b` unless `a` raised: Python statement sequencing. */
  function AndThen(a: Run, b: Run): (r: Run)
    ensures a.outcome.Raise? ==> r == a
    ensures a.outcome.Completed? ==> r == Run(a.effects + b.effects, b.outcome)
  {
    if a.outcome.Raise? then a else Then(a.effects, b)
  }

  /** Prefixing twice is prefixing once with both. */
  lemma ThenThen(prefix: seq<Effect>, step: seq<Effect>, r: Run)
    ensures Then(prefix, Then(step, r)) == Then(prefix + step, r)
  {
    assert prefix + (step + r.effects) == (prefix + step) + r.effects;
  }

  /** Whatever `b` does, `a`'s requests come first. */
  lemma AndThenHead(a: Run, b: Run)
    ensures a.effects <= AndThen(a, b).effects
  {
  }

  /** In a chain of statements, the first one's requests come first. */
  lemma ChainHead(a: Run, b: Run, c: Run, d: Run, e: Run)
    ensures a.effects <= AndThen(AndThen(AndThen(AndThen(a, b), c), d), e).effects
  {
    AndThenHead(a, b);
    AndThenHead(AndThen(a, b), c);
    AndThenHead(AndThen(AndThen(a, b), c), d);
    AndThenHead(AndThen(AndThen(AndThen(a, b), c), d), e);
  }

  /** A loop that has issued `prefix` and now runs `a` then `b`: it either
      stops with `a`'s exception or goes on with `b` after `prefix` and `a`'s
      requests. */
  lemma ThenAndThen(prefix: seq<Effect>, a: Run, b: Run)
    ensures a.outcome.Raise? ==> Then(prefix, AndThen(a, b)) == Run(prefix + a.effects, a.outcome)
    ensures a.outcome.Completed? ==> Then(prefix, AndThen(a, b)) == Then(prefix + a.effects, b)
  {
    assert (prefix + a.effects) + b.effects == prefix + (a.effects + b.effects);
  }

  // ---------------------------------------------------------------------
  // The state bucket
  // ---------------------------------------------------------------------

  /** The objects of `bucket` after the requests of `trace`: put_object
      stores under its key and a later put under the same key replaces the
      earlier one. */
  function Store(trace: seq<Effect>, bucket: string): map<string, StateRecord> {
    if trace == [] then map[]
    else
      var m := Store(trace[..|trace| - 1], bucket);
      var e := trace[|trace| - 1];
      if e.SaveState? && e.bucket == bucket then m[e.key := e.record] else m
  }

  /** Exactly the keys that some request put into the bucket are present. */
  lemma {:induction false} StoreKeys(trace: seq<Effect>, bucket: string, key: string)
    ensures key in Store(trace, bucket) <==>
      exists i :: 0 <= i < |trace| && trace[i].SaveState? && trace[i].bucket == bucket && trace[i].key == key
  {
    if trace != [] {
      var init := trace[..|trace| - 1];
      StoreKeys(init, bucket, key);
      if exists i :: 0 <= i < |init| && init[i].SaveState? && init[i].bucket == bucket && init[i].key == key {
        var i :| 0 <= i < |init| && init[i].SaveState? && init[i].bucket == bucket && init[i].key == key;
        assert trace[i] == init[i];
      }
      if exists i :: 0 <= i < |trace| && trace[i].SaveState? && trace[i].bucket == bucket && trace[i].key == key {
        var i :| 0 <= i < |trace| && trace[i].SaveState? && trace[i].bucket == bucket && trace[i].key == key;
        if i < |init| {
          assert init[i] == trace[i];
        }
      }
    }
  }

  /** Last write wins: the object under `key` is the record of the last put
      to that key. */
  lemma {:induction false} StoreLastWrite(trace: seq<Effect>, bucket: string, i: nat)
    requires i < |trace| && trace[i].SaveState? && trace[i].bucket == bucket
    requires forall j :: i < j < |trace| ==> !(trace[j].SaveState? && trace[j].bucket == bucket && trace[j].key == trace[i].key)
    ensures trace[i].key in Store(trace, bucket) && Store(trace, bucket)[trace[i].key] == trace[i].record
  {
    if i < |trace| - 1 {
      var init := trace[..|trace| - 1];
      assert init[i] == trace[i];
      StoreLastWrite(init, bucket, i);
    }
  }

  /** The put_object requests for a list of stack records, in order. */
  function StackSaves(bucket: string, records: seq<StackRecord>): (es: seq<Effect>)
    ensures |es| == |records|
    ensures forall i :: 0 <= i < |records| ==> es[i] == SaveState(bucket, records[i].name, StackState(records[i]))
  {
    if records == [] then []
    else StackSaves(bucket, records[..|records| - 1]) + [SaveState(bucket, records[|records| - 1].name, StackState(records[|records| - 1]))]
  }

  /** Records saved under pairwise distinct names are read back unchanged:
      the record a later start run reads for a stack is the one the stop run
      wrote for it. */
  lemma SavedStacksReadBack(bucket: string, records: seq<StackRecord>, i: nat)
    requires i < |records|
    requires forall j, k :: 0 <= j < k < |records| ==> records[j].name != records[k].name
    ensures records[i].name in Store(StackSaves(bucket, records), bucket)
    ensures Store(StackSaves(bucket, records), bucket)[records[i].name] == StackState(records[i])
  {
    StoreLastWrite(StackSaves(bucket, records), bucket, i);
  }

  /** The number of CreateStack requests in a trace. */
  function Creates(es: seq<Effect>): nat {
    if es == [] then 0 else Creates(es[..|es| - 1]) + (if es[|es| - 1].CreateStack? then 1 else 0)
  }

  /** The number of DeleteStack requests in a trace. */
  function Deletes(es: seq<Effect>): nat {
    if es == [] then 0 else Deletes(es[..|es| - 1]) + (if es[|es| - 1].DeleteStack? then 1 else 0)
  }

  lemma {:induction false} CountsConcat(a: seq<Effect>, b: seq<Effect>)
    ensures Creates(a + b) == Creates(a) + Creates(b)
    ensures Deletes(a + b) == Deletes(a) + Deletes(b)
  {
    if b == [] {
      assert a + b == a;
    } else {
      assert (a + b)[..|a + b| - 1] == a + b[..|b| - 1];
      CountsConcat(a, b[..|b| - 1]);
    }
  }
}

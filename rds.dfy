/** The RDS part of both scripts: `stop_rds` / `start_rds`, each run once over
    the DB instances and once over the DB clusters. One rule decides whether a
    listed resource is acted on; the loops issue the stop or start requests
    (and, on start, the wait for an instance to become available) in listing
    order. */
module Rds {
  import opened Common
  import opened Tags
  import opened Effects

  /** The unprefixed include tag every version accepts. */
  const CfnStacksKey: string := "stop_or_start_with_cfn_stacks"
  /** The unprefixed wait tag of the start script. */
  const WaitKey: string := "start_wait_until_available"
  /** The include key given to `full_ass_tag` by the current scripts. */
  const IncludeTag: string := "ass:rds:include"
  /** The wait key given to `full_ass_tag` by the start script. */
  const WaitTag: string := "ass:rds:start-wait-until-available"

  /** What the two list_tags_for_resource calls of one `or` test return, in
      call order: each `resource_has_tag` call fetches the tags anew, and
      each can raise on its own. */
  datatype TagCalls = TagCalls(first: TagFetch, second: TagFetch)

  /** One entry of DBInstances / DBClusters: its identifier, ARN, status
      (DBInstanceStatus or Status), DBClusterIdentifier if the entry has one,
      the answers of the include test's two tag calls and of the start
      script's wait test's two tag calls, and how the stop_db_* (stop
      script) or start_db_* (start script) request for it goes when one is
      sent: a ClientError, such as an invalid DB state, is not caught by the
      loop. */
  datatype RdsItem = RdsItem(identifier: string, arn: string, status: string, clusterId: Option<string>,
                             includeTags: TagCalls, waitTags: TagCalls, request: Outcome)

  datatype Decision = Act | SkipUntagged | SkipStatus | SkipClusterMember

  /** The include test: the first call finds the stack-wide tag or the
      second finds the include key, each with the value "yes". */
  predicate IncludeTagged(item: RdsItem, includeKey: string) {
    ResourceHasTag(item.includeTags.first, CfnStacksKey, "yes") || ResourceHasTag(item.includeTags.second, includeKey, "yes")
  }

  /** The decision both loops make for one item: untagged items are skipped,
      then items not in `requiredStatus`, then instances that belong to a
      cluster (the cluster pass handles those). */
  function Decide(kind: RdsKind, item: RdsItem, includeKey: string, requiredStatus: string): (d: Decision)
    ensures d == Act <==>
      IncludeTagged(item, includeKey) && item.status == requiredStatus && !(kind == Instance && item.clusterId.Some?)
    ensures d == SkipUntagged <==> !IncludeTagged(item, includeKey)
    ensures d == SkipStatus <==> IncludeTagged(item, includeKey) && item.status != requiredStatus
    ensures d == SkipClusterMember ==> kind == Instance && item.clusterId.Some?
  {
    if !IncludeTagged(item, includeKey) then SkipUntagged
    else if item.status != requiredStatus then SkipStatus
    else if kind == Instance && item.clusterId.Some? then SkipClusterMember
    else Act
  }

  /** A tag call that raised reads as False: an item both of whose include
      calls raised is never acted on. */
  lemma FailedTagFetchSkips(kind: RdsKind, item: RdsItem, includeKey: string, requiredStatus: string)
    requires item.includeTags.first.None? && item.includeTags.second.None?
    ensures Decide(kind, item, includeKey, requiredStatus) == SkipUntagged
  {
  }

  /** When only the first include call raised, the second call alone
      decides whether the item is tagged. */
  lemma FirstTagFetchFailing(kind: RdsKind, item: RdsItem, includeKey: string, requiredStatus: string)
    requires item.includeTags.first.None?
    ensures Decide(kind, item, includeKey, requiredStatus) == Act <==>
      item.includeTags.second.Some? && Tag(includeKey, "yes") in item.includeTags.second.value &&
      item.status == requiredStatus && !(kind == Instance && item.clusterId.Some?)
  {
  }

  // ---------------------------------------------------------------------
  // stop_rds
  // ---------------------------------------------------------------------

  /** One iteration of the stop loop: an accepted item gets its stop
      request, and an exception that request raises ends the loop; any other
      item gets nothing. */
  function StopStep(kind: RdsKind, item: RdsItem, includeKey: string): (r: Run)
    ensures forall e :: e in r.effects ==> StopsItem(kind, item, includeKey, e)
    ensures Decide(kind, item, includeKey, "available") == Act ==> StopDb(kind, item.identifier) in r.effects
    ensures r.outcome.Raise? ==> StopRaisedBy(kind, item, includeKey, r.outcome)
  {
    if Decide(kind, item, includeKey, "available") == Act then Run([StopDb(kind, item.identifier)], item.request)
    else Run([], Completed)
  }

  /** `e` is the stop request the loop issues for an accepted `item`. */
  predicate StopsItem(kind: RdsKind, item: RdsItem, includeKey: string, e: Effect) {
    Decide(kind, item, includeKey, "available") == Act && e == StopDb(kind, item.identifier)
  }

  /** `o` is what the stop request for an accepted `item` raised. */
  predicate StopRaisedBy(kind: RdsKind, item: RdsItem, includeKey: string, o: Outcome) {
    Decide(kind, item, includeKey, "available") == Act && o == item.request
  }

  /** The stop loop over a listing: one step per item, in listing order,
      until a request raises. */
  function StopLoop(kind: RdsKind, items: seq<RdsItem>, includeKey: string): Run
    decreases |items|
  {
    if items == [] then Run([], Completed)
    else AndThen(StopStep(kind, items[0], includeKey), StopLoop(kind, items[1..], includeKey))
  }

  /** The loop gets to item `i`: every request before it went through. */
  predicate StopReached(kind: RdsKind, items: seq<RdsItem>, includeKey: string, i: nat) {
    i <= |items| && StopLoop(kind, items[..i], includeKey).outcome.Completed?
  }

  /** The loop over a non-empty prefix is the first step, then the loop over
      the rest of the prefix. */
  lemma StopLoopCons(kind: RdsKind, items: seq<RdsItem>, includeKey: string, i: nat)
    requires 0 < i <= |items|
    ensures StopLoop(kind, items[..i], includeKey) == AndThen(StopStep(kind, items[0], includeKey), StopLoop(kind, items[1..][..i - 1], includeKey))
  {
    assert items[..i][0] == items[0];
    assert items[..i][1..] == items[1..][..i - 1];
  }

  /** The loop gets to item `j + 1` iff the first step went through and the
      loop over the rest gets to item `j`. */
  lemma StopReachedShift(kind: RdsKind, items: seq<RdsItem>, includeKey: string, j: nat)
    requires j < |items| - 1
    ensures StopReached(kind, items, includeKey, j + 1) <==>
      StopStep(kind, items[0], includeKey).outcome.Completed? && StopReached(kind, items[1..], includeKey, j)
  {
    StopLoopCons(kind, items, includeKey, j + 1);
  }

  /** The item whose stop request `e` is: an accepted one the loop got to. */
  lemma {:induction false} StopIssuer(kind: RdsKind, items: seq<RdsItem>, includeKey: string, e: Effect) returns (i: nat)
    requires e in StopLoop(kind, items, includeKey).effects
    ensures i < |items| && StopsItem(kind, items[i], includeKey, e) && StopReached(kind, items, includeKey, i)
    decreases |items|
  {
    var step := StopStep(kind, items[0], includeKey);
    var q := StopLoop(kind, items[1..], includeKey);
    assert StopLoop(kind, items, includeKey) == AndThen(step, q);
    assert items[..0] == [];
    if e in step.effects {
      i := 0;
    } else {
      var j := StopIssuer(kind, items[1..], includeKey, e);
      StopReachedShift(kind, items, includeKey, j);
      i := j + 1;
    }
  }

  /** An accepted item the loop gets to has its stop request issued. */
  lemma {:induction false} StopIssued(kind: RdsKind, items: seq<RdsItem>, includeKey: string, e: Effect, i: nat)
    requires i < |items| && StopsItem(kind, items[i], includeKey, e) && StopReached(kind, items, includeKey, i)
    ensures e in StopLoop(kind, items, includeKey).effects
    decreases |items|
  {
    var step := StopStep(kind, items[0], includeKey);
    var q := StopLoop(kind, items[1..], includeKey);
    assert StopLoop(kind, items, includeKey) == AndThen(step, q);
    if i > 0 {
      StopReachedShift(kind, items, includeKey, i - 1);
      assert items[1..][i - 1] == items[i];
      StopIssued(kind, items[1..], includeKey, e, i - 1);
    }
  }

  /** A stop request is issued exactly for the accepted items the loop gets
      to: those before the first request that raised, and that one. */
  lemma StopLoopExact(kind: RdsKind, items: seq<RdsItem>, includeKey: string, e: Effect)
    ensures e in StopLoop(kind, items, includeKey).effects <==>
      exists i :: 0 <= i < |items| && StopsItem(kind, items[i], includeKey, e) && StopReached(kind, items, includeKey, i)
  {
    if e in StopLoop(kind, items, includeKey).effects {
      var i := StopIssuer(kind, items, includeKey, e);
    }
    if exists i :: 0 <= i < |items| && StopsItem(kind, items[i], includeKey, e) && StopReached(kind, items, includeKey, i) {
      var i :| 0 <= i < |items| && StopsItem(kind, items[i], includeKey, e) && StopReached(kind, items, includeKey, i);
      StopIssued(kind, items, includeKey, e, i);
    }
  }

  /** A loop that raised was ended by the stop request of an accepted item
      it got to; a loop that completed got to every item. */
  lemma {:induction false} StopLoopOutcome(kind: RdsKind, items: seq<RdsItem>, includeKey: string)
    ensures StopLoop(kind, items, includeKey).outcome.Raise? ==>
      exists i :: 0 <= i < |items| && StopReached(kind, items, includeKey, i) &&
        StopRaisedBy(kind, items[i], includeKey, StopLoop(kind, items, includeKey).outcome)
    ensures StopLoop(kind, items, includeKey).outcome.Completed? ==>
      forall i :: 0 <= i <= |items| ==> StopReached(kind, items, includeKey, i)
    decreases |items|
  {
    assert items[..0] == [];
    if items != [] {
      var rest := items[1..];
      var step := StopStep(kind, items[0], includeKey);
      var q := StopLoop(kind, rest, includeKey);
      var r := StopLoop(kind, items, includeKey);
      assert r == AndThen(step, q);
      StopLoopOutcome(kind, rest, includeKey);
      if r.outcome.Raise? {
        if step.outcome.Raise? {
          assert StopReached(kind, items, includeKey, 0);
        } else {
          var j :| 0 <= j < |rest| && StopReached(kind, rest, includeKey, j) && StopRaisedBy(kind, rest[j], includeKey, q.outcome);
          StopLoopCons(kind, items, includeKey, j + 1);
          assert items[j + 1] == rest[j];
          assert StopReached(kind, items, includeKey, j + 1);
        }
      } else {
        forall i | 0 <= i <= |items|
          ensures StopReached(kind, items, includeKey, i)
        {
          if i > 0 {
            StopLoopCons(kind, items, includeKey, i);
            assert StopReached(kind, rest, includeKey, i - 1);
          }
        }
      }
    }
  }

  /** A stop loop that completed stopped every accepted item. */
  lemma StopLoopComplete(kind: RdsKind, items: seq<RdsItem>, includeKey: string, i: nat)
    requires i < |items| && Decide(kind, items[i], includeKey, "available") == Act
    requires StopLoop(kind, items, includeKey).outcome.Completed?
    ensures StopDb(kind, items[i].identifier) in StopLoop(kind, items, includeKey).effects
  {
    StopLoopOutcome(kind, items, includeKey);
    StopLoopExact(kind, items, includeKey, StopDb(kind, items[i].identifier));
    assert StopsItem(kind, items[i], includeKey, StopDb(kind, items[i].identifier)) && StopReached(kind, items, includeKey, i);
  }

  /** The body of the stop loop for one item. */
  method StopItem(kind: RdsKind, item: RdsItem, includeKey: string) returns (step: Run)
    ensures step == StopStep(kind, item, includeKey)
  {
    step := Run([], Completed);
    if Decide(kind, item, includeKey, "available") == Act {
      step := Run([StopDb(kind, item.identifier)], item.request);
    }
  }

  /** A stop pass over a listing that may itself have raised. */
  function StopPass(kind: RdsKind, listing: Result<seq<RdsItem>>, includeKey: string): Run {
    if listing.Failure? then Run([], Raise(listing.error)) else StopLoop(kind, listing.value, includeKey)
  }

  /** `stop_rds(kind, ...)`: a listing that raised (NoRegionError,
      NoCredentialsError, ...) propagates before any request; otherwise the
      loop, which ends at the first stop request that raised. */
  method StopRds(kind: RdsKind, listing: Result<seq<RdsItem>>, includeKey: string) returns (run: Run)
    ensures listing.Failure? ==> run == Run([], Raise(listing.error))
    ensures listing.Success? ==> run == StopLoop(kind, listing.value, includeKey)
  {
    if listing.Failure? {
      return Run([], Raise(listing.error));
    }
    var items := listing.value;
    var effects: seq<Effect> := [];
    var i := 0;
    while i < |items|
      invariant 0 <= i <= |items|
      invariant StopLoop(kind, items, includeKey) == Then(effects, StopLoop(kind, items[i..], includeKey))
    {
      assert items[i..][1..] == items[i + 1..];
      var step := StopItem(kind, items[i], includeKey);
      ThenAndThen(effects, step, StopLoop(kind, items[i + 1..], includeKey));
      effects := effects + step.effects;
      if step.outcome.Raise? {
        return Run(effects, step.outcome);
      }
      i := i + 1;
    }
    run := Run(effects, Completed);
  }

  /** The RDS path of a stop script as one Run: instances, then clusters. */
  function StopTaggedRdsRun(instances: Result<seq<RdsItem>>, clusters: Result<seq<RdsItem>>, includeKey: string): Run {
    AndThen(StopPass(Instance, instances, includeKey), StopPass(Cluster, clusters, includeKey))
  }

  /** The stop path only sends stop requests, each for an accepted item of
      a listing that succeeded. */
  lemma StopTaggedRdsRequests(instances: Result<seq<RdsItem>>, clusters: Result<seq<RdsItem>>, includeKey: string, e: Effect)
    requires e in StopTaggedRdsRun(instances, clusters, includeKey).effects
    ensures (instances.Success? && exists i :: 0 <= i < |instances.value| && StopsItem(Instance, instances.value[i], includeKey, e)) ||
            (clusters.Success? && exists i :: 0 <= i < |clusters.value| && StopsItem(Cluster, clusters.value[i], includeKey, e))
  {
    if instances.Success? {
      StopLoopExact(Instance, instances.value, includeKey, e);
    }
    if clusters.Success? {
      StopLoopExact(Cluster, clusters.value, includeKey, e);
    }
  }

  /** `stop_tagged_rds_clusters_and_instances`: instances first, then
      clusters; an exception in the instance pass, from its listing or from
      one of its stop requests, ends the run before the cluster pass. */
  method StopTaggedRds(instances: Result<seq<RdsItem>>, clusters: Result<seq<RdsItem>>, includeKey: string)
    returns (run: Run)
    ensures run == StopTaggedRdsRun(instances, clusters, includeKey)
    ensures instances.Failure? ==> run == Run([], Raise(instances.error))
    ensures instances.Success? ==>
      var first := StopLoop(Instance, instances.value, includeKey);
      (first.outcome.Raise? ==> run == first) &&
      (first.outcome.Completed? && clusters.Failure? ==> run == Run(first.effects, Raise(clusters.error))) &&
      (first.outcome.Completed? && clusters.Success? ==>
        run == Then(first.effects, StopLoop(Cluster, clusters.value, includeKey)))
  {
    run := StopRds(Instance, instances, includeKey);
    if run.outcome.Raise? {
      return;
    }
    var second := StopRds(Cluster, clusters, includeKey);
    run := Then(run.effects, second);
  }

  // ---------------------------------------------------------------------
  // start_rds
  // ---------------------------------------------------------------------

  /** The wait test of the start script: the first call finds the unprefixed
      wait tag or the second finds the configured one, each with "yes". */
  predicate WantsWait(item: RdsItem, waitKey: string) {
    ResourceHasTag(item.waitTags.first, WaitKey, "yes") || ResourceHasTag(item.waitTags.second, waitKey, "yes")
  }

  /** When both wait calls raised, the start loop does not wait for the
      item. */
  lemma FailedWaitFetchesSkipWait(kind: RdsKind, item: RdsItem, includeKey: string, waitKey: string, waitOk: string -> bool)
    requires item.waitTags.first.None? && item.waitTags.second.None?
    ensures WaitDbAvailable(item.identifier) !in StartStep(kind, item, includeKey, waitKey, waitOk).effects
  {
  }

  /** One iteration of the start script's loop: an accepted item gets its
      start request, and an exception that request raises ends the loop; an
      accepted instance tagged to wait is then waited for, and a waiter that
      fails (`waitOk` is false for its identifier) raises WaiterError.
      Clusters are never waited for. */
  function StartStep(kind: RdsKind, item: RdsItem, includeKey: string, waitKey: string, waitOk: string -> bool): (r: Run)
    ensures forall e :: e in r.effects ==> IssuedFor(kind, item, includeKey, waitKey, e)
    ensures r.outcome.Raise? ==> StartRaisedBy(kind, item, includeKey, r.outcome)
    ensures Decide(kind, item, includeKey, "stopped") == Act ==> StartDb(kind, item.identifier) in r.effects
    ensures item.request.Raise? ==> WaitDbAvailable(item.identifier) !in r.effects
    ensures Decide(kind, item, includeKey, "stopped") == Act && kind == Instance && WantsWait(item, waitKey) && !item.request.Raise? ==>
      WaitDbAvailable(item.identifier) in r.effects
    ensures WaitDbAvailable(item.identifier) in r.effects && !waitOk(item.identifier) ==> r.outcome == Raise(WaiterError)
  {
    if Decide(kind, item, includeKey, "stopped") != Act then Run([], Completed)
    else if item.request.Raise? then Run([StartDb(kind, item.identifier)], item.request)
    else if kind == Instance && WantsWait(item, waitKey) then
      Run([StartDb(kind, item.identifier), WaitDbAvailable(item.identifier)], if waitOk(item.identifier) then Completed else Raise(WaiterError))
    else Run([StartDb(kind, item.identifier)], Completed)
  }

  /** `e` is a request the start loop may issue for `item`. */
  predicate IssuedFor(kind: RdsKind, item: RdsItem, includeKey: string, waitKey: string, e: Effect) {
    Decide(kind, item, includeKey, "stopped") == Act &&
    (e == StartDb(kind, item.identifier) || (e == WaitDbAvailable(item.identifier) && kind == Instance && WantsWait(item, waitKey)))
  }

  /** `o` is what the start of an accepted `item` raised: its start request's
      exception, or WaiterError from an instance's waiter. */
  predicate StartRaisedBy(kind: RdsKind, item: RdsItem, includeKey: string, o: Outcome) {
    Decide(kind, item, includeKey, "stopped") == Act && (o == item.request || (o == Raise(WaiterError) && kind == Instance))
  }

  /** The start script's loop: one step per item, in listing order, until a
      start request or a waiter raises. */
  function StartLoop(kind: RdsKind, items: seq<RdsItem>, includeKey: string, waitKey: string, waitOk: string -> bool): Run
    decreases |items|
  {
    if items == [] then Run([], Completed)
    else AndThen(StartStep(kind, items[0], includeKey, waitKey, waitOk), StartLoop(kind, items[1..], includeKey, waitKey, waitOk))
  }

  /** The loop gets to item `i`: every item before it started (and, where
      waited for, became available). */
  predicate StartReached(kind: RdsKind, items: seq<RdsItem>, includeKey: string, waitKey: string, waitOk: string -> bool, i: nat) {
    i <= |items| && StartLoop(kind, items[..i], includeKey, waitKey, waitOk).outcome.Completed?
  }

  /** The loop over a non-empty prefix is the first step, then the loop over
      the rest of the prefix. */
  lemma StartLoopCons(kind: RdsKind, items: seq<RdsItem>, includeKey: string, waitKey: string, waitOk: string -> bool, i: nat)
    requires 0 < i <= |items|
    ensures StartLoop(kind, items[..i], includeKey, waitKey, waitOk) ==
      AndThen(StartStep(kind, items[0], includeKey, waitKey, waitOk), StartLoop(kind, items[1..][..i - 1], includeKey, waitKey, waitOk))
  {
    assert items[..i][0] == items[0];
    assert items[..i][1..] == items[1..][..i - 1];
  }

  /** The loop gets to item `j + 1` iff the first step went through and the
      loop over the rest gets to item `j`. */
  lemma StartReachedShift(kind: RdsKind, items: seq<RdsItem>, includeKey: string, waitKey: string, waitOk: string -> bool, j: nat)
    requires j < |items| - 1
    ensures StartReached(kind, items, includeKey, waitKey, waitOk, j + 1) <==>
      StartStep(kind, items[0], includeKey, waitKey, waitOk).outcome.Completed? && StartReached(kind, items[1..], includeKey, waitKey, waitOk, j)
  {
    StartLoopCons(kind, items, includeKey, waitKey, waitOk, j + 1);
  }

  /** The item a request `e` of the start loop was issued for: an accepted
      one the loop got to. */
  lemma {:induction false} StartIssuer(kind: RdsKind, items: seq<RdsItem>, includeKey: string, waitKey: string, waitOk: string -> bool, e: Effect)
    returns (i: nat)
    requires e in StartLoop(kind, items, includeKey, waitKey, waitOk).effects
    ensures i < |items| && IssuedFor(kind, items[i], includeKey, waitKey, e) && StartReached(kind, items, includeKey, waitKey, waitOk, i)
    decreases |items|
  {
    var step := StartStep(kind, items[0], includeKey, waitKey, waitOk);
    var q := StartLoop(kind, items[1..], includeKey, waitKey, waitOk);
    assert StartLoop(kind, items, includeKey, waitKey, waitOk) == AndThen(step, q);
    assert items[..0] == [];
    if e in step.effects {
      i := 0;
    } else {
      var j := StartIssuer(kind, items[1..], includeKey, waitKey, waitOk, e);
      StartReachedShift(kind, items, includeKey, waitKey, waitOk, j);
      i := j + 1;
    }
  }

  /** The item whose start request or waiter raised the exception that ended
      the start loop: an accepted one the loop got to. */
  lemma {:induction false} StartRaiser(kind: RdsKind, items: seq<RdsItem>, includeKey: string, waitKey: string, waitOk: string -> bool)
    returns (i: nat)
    requires StartLoop(kind, items, includeKey, waitKey, waitOk).outcome.Raise?
    ensures i < |items| && StartReached(kind, items, includeKey, waitKey, waitOk, i)
    ensures StartRaisedBy(kind, items[i], includeKey, StartLoop(kind, items, includeKey, waitKey, waitOk).outcome)
    decreases |items|
  {
    var step := StartStep(kind, items[0], includeKey, waitKey, waitOk);
    var q := StartLoop(kind, items[1..], includeKey, waitKey, waitOk);
    assert StartLoop(kind, items, includeKey, waitKey, waitOk) == AndThen(step, q);
    assert items[..0] == [];
    if step.outcome.Raise? {
      i := 0;
    } else {
      var j := StartRaiser(kind, items[1..], includeKey, waitKey, waitOk);
      StartReachedShift(kind, items, includeKey, waitKey, waitOk, j);
      i := j + 1;
    }
  }

  /** Every request of the start loop is one for an accepted item the loop
      got to; an exception that ends it is the start request's or the
      waiter's of an accepted item it got to. */
  lemma StartLoopSound(kind: RdsKind, items: seq<RdsItem>, includeKey: string, waitKey: string, waitOk: string -> bool)
    ensures forall e :: e in StartLoop(kind, items, includeKey, waitKey, waitOk).effects ==>
      exists i :: 0 <= i < |items| && IssuedFor(kind, items[i], includeKey, waitKey, e) && StartReached(kind, items, includeKey, waitKey, waitOk, i)
    ensures StartLoop(kind, items, includeKey, waitKey, waitOk).outcome.Raise? ==>
      exists i :: 0 <= i < |items| && StartReached(kind, items, includeKey, waitKey, waitOk, i) &&
        StartRaisedBy(kind, items[i], includeKey, StartLoop(kind, items, includeKey, waitKey, waitOk).outcome)
  {
    forall e | e in StartLoop(kind, items, includeKey, waitKey, waitOk).effects
      ensures exists i :: 0 <= i < |items| && IssuedFor(kind, items[i], includeKey, waitKey, e) && StartReached(kind, items, includeKey, waitKey, waitOk, i)
    {
      var i := StartIssuer(kind, items, includeKey, waitKey, waitOk, e);
    }
    if StartLoop(kind, items, includeKey, waitKey, waitOk).outcome.Raise? {
      var i := StartRaiser(kind, items, includeKey, waitKey, waitOk);
    }
  }

  /** A start loop that completed started every accepted item and waited
      for every accepted instance tagged to wait. */
  lemma {:induction false} StartLoopComplete(kind: RdsKind, items: seq<RdsItem>, includeKey: string, waitKey: string, waitOk: string -> bool, i: nat)
    requires i < |items| && Decide(kind, items[i], includeKey, "stopped") == Act
    requires StartLoop(kind, items, includeKey, waitKey, waitOk).outcome.Completed?
    ensures StartDb(kind, items[i].identifier) in StartLoop(kind, items, includeKey, waitKey, waitOk).effects
    ensures kind == Instance && WantsWait(items[i], waitKey) ==>
      WaitDbAvailable(items[i].identifier) in StartLoop(kind, items, includeKey, waitKey, waitOk).effects
    decreases |items|
  {
    var step := StartStep(kind, items[0], includeKey, waitKey, waitOk);
    var q := StartLoop(kind, items[1..], includeKey, waitKey, waitOk);
    assert StartLoop(kind, items, includeKey, waitKey, waitOk) == AndThen(step, q);
    if i > 0 {
      assert items[1..][i - 1] == items[i];
      StartLoopComplete(kind, items[1..], includeKey, waitKey, waitOk, i - 1);
    }
  }

  /** The body of the start script's loop for one item. */
  method StartItem(kind: RdsKind, item: RdsItem, includeKey: string, waitKey: string, waitOk: string -> bool) returns (step: Run)
    ensures step == StartStep(kind, item, includeKey, waitKey, waitOk)
  {
    var effects: seq<Effect> := [];
    if Decide(kind, item, includeKey, "stopped") == Act {
      effects := effects + [StartDb(kind, item.identifier)];
      if item.request.Raise? {
        return Run(effects, item.request);
      }
      if kind == Instance && WantsWait(item, waitKey) {
        effects := effects + [WaitDbAvailable(item.identifier)];
        if !waitOk(item.identifier) {
          return Run(effects, Raise(WaiterError));
        }
      }
    }
    step := Run(effects, Completed);
  }

  /** `start_rds(kind, ...)`: a listing that raised propagates before any
      request; otherwise the loop issues the requests of StartLoop and stops
      at the first start request or waiter that raised. */
  method StartRds(kind: RdsKind, listing: Result<seq<RdsItem>>, includeKey: string, waitKey: string, waitOk: string -> bool)
    returns (run: Run)
    ensures listing.Failure? ==> run == Run([], Raise(listing.error))
    ensures listing.Success? ==> run == StartLoop(kind, listing.value, includeKey, waitKey, waitOk)
  {
    if listing.Failure? {
      return Run([], Raise(listing.error));
    }
    var items := listing.value;
    var effects: seq<Effect> := [];
    var i := 0;
    while i < |items|
      invariant 0 <= i <= |items|
      invariant StartLoop(kind, items, includeKey, waitKey, waitOk) == Then(effects, StartLoop(kind, items[i..], includeKey, waitKey, waitOk))
    {
      assert items[i..][1..] == items[i + 1..];
      var step := StartItem(kind, items[i], includeKey, waitKey, waitOk);
      ThenAndThen(effects, step, StartLoop(kind, items[i + 1..], includeKey, waitKey, waitOk));
      effects := effects + step.effects;
      if step.outcome.Raise? {
        return Run(effects, step.outcome);
      }
      i := i + 1;
    }
    run := Run(effects, Completed);
  }

  /** A start pass over a listing that may itself have raised. */
  function StartPass(kind: RdsKind, listing: Result<seq<RdsItem>>, includeKey: string, waitKey: string, waitOk: string -> bool): Run {
    if listing.Failure? then Run([], Raise(listing.error)) else StartLoop(kind, listing.value, includeKey, waitKey, waitOk)
  }

  /** The RDS phase of the start script as one Run. */
  function StartTaggedRdsRun(skip: bool, instances: Result<seq<RdsItem>>, clusters: Result<seq<RdsItem>>,
                             includeKey: string, waitKey: string, waitOk: string -> bool): Run {
    if skip then Run([], Completed)
    else AndThen(StartPass(Instance, instances, includeKey, waitKey, waitOk), StartPass(Cluster, clusters, includeKey, waitKey, waitOk))
  }

  /** `start_tagged_rds_clusters_and_instances`: nothing at all when
      ASS_SKIP_RDS is "1"; otherwise instances, then clusters, with the
      prefixed include and wait keys. */
  method StartTaggedRds(skip: bool, instances: Result<seq<RdsItem>>, clusters: Result<seq<RdsItem>>,
                        includeKey: string, waitKey: string, waitOk: string -> bool)
    returns (run: Run)
    ensures run == StartTaggedRdsRun(skip, instances, clusters, includeKey, waitKey, waitOk)
    ensures skip ==> run == Run([], Completed)
    ensures !skip && instances.Failure? ==> run == Run([], Raise(instances.error))
    ensures !skip && instances.Success? ==>
      var first := StartLoop(Instance, instances.value, includeKey, waitKey, waitOk);
      (first.outcome.Raise? ==> run == first) &&
      (first.outcome.Completed? && clusters.Failure? ==> run == Run(first.effects, Raise(clusters.error))) &&
      (first.outcome.Completed? && clusters.Success? ==>
        run == Then(first.effects, StartLoop(Cluster, clusters.value, includeKey, waitKey, waitOk)))
  {
    if skip {
      return Run([], Completed);
    }
    run := StartRds(Instance, instances, includeKey, waitKey, waitOk);
    if run.outcome.Raise? {
      return;
    }
    var second := StartRds(Cluster, clusters, includeKey, waitKey, waitOk);
    run := Then(run.effects, second);
  }
}

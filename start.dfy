/** aws-ass-start.py: starts the tagged RDS resources, recreates the deleted
    tagged CloudFormation stacks from their templates and saved parameters,
    rebuilds the terminated Beanstalk environments and restores backed-up
    buckets. Listings and per-resource answers of the SDK are inputs; the
    state bucket is the map of records the stop script saved. */
module AssStart {
  import opened Common
  import opened Tags
  import opened Ordering
  import opened Effects
  import opened AssConfig
  import opened AssAws
  import opened Rds
  import opened Discovery

  /** How many times `create_stack` is tried. */
  const Retries: nat := 3
  const TerminatedStatus: string := "Terminated"
  const BackupBucketTag: string := "ass:s3:backup-and-empty-bucket-on-stop"

  // ---------------------------------------------------------------------
  // is_nested_stack
  // ---------------------------------------------------------------------

  /** `is_nested_stack(logger, names, name)`: a deleted nested stack has no
      ParentId any more, so a name counts as nested when it starts with some
      listed name followed by a dash. */
  function IsNestedName(names: seq<string>, name: string): (r: bool)
  {
    if names == [] then false
    else if StartsWith(name, names[0] + "-") then true
    else IsNestedName(names[1..], name)
  }

  /** The search finds a listed name that `name` extends with a dash, and
      only such a name. */
  lemma {:induction false} IsNestedNameExact(names: seq<string>, name: string)
    ensures IsNestedName(names, name) <==> exists i :: 0 <= i < |names| && StartsWith(name, names[i] + "-")
  {
    if names != [] {
      IsNestedNameExact(names[1..], name);
      if exists i :: 0 <= i < |names| - 1 && StartsWith(name, names[1..][i] + "-") {
        var i :| 0 <= i < |names| - 1 && StartsWith(name, names[1..][i] + "-");
        assert names[i + 1] == names[1..][i];
      }
      if exists i :: 0 <= i < |names| && StartsWith(name, names[i] + "-") {
        var i :| 0 <= i < |names| && StartsWith(name, names[i] + "-");
        if i > 0 {
          assert names[1..][i - 1] == names[i];
        }
      }
    }
  }

  /** A name is never nested under itself: the name it is nested under is a
      different, strictly shorter one. */
  lemma {:induction false} NestedUnderShorterName(names: seq<string>, name: string)
    requires IsNestedName(names, name)
    ensures exists i :: 0 <= i < |names| && |names[i]| < |name| && names[i] != name
  {
    IsNestedNameExact(names, name);
    var i :| 0 <= i < |names| && StartsWith(name, names[i] + "-");
    assert |names[i]| < |name|;
  }

  // ---------------------------------------------------------------------
  // get_stack_names_and_creation_order: most recent entry per name
  // ---------------------------------------------------------------------

  /** One entry of list_stacks(StackStatusFilter=['DELETE_COMPLETE']). A
      DeletionTime is an int here. */
  datatype StackSummary = StackSummary(name: string, id: string, deletionTime: int)

  /** The names of a dict's entries, in insertion order. */
  function Names(d: seq<StackSummary>): (ns: seq<string>)
    ensures |ns| == |d| && forall i :: 0 <= i < |d| ==> ns[i] == d[i].name
  {
    if d == [] then [] else Names(d[..|d| - 1]) + [d[|d| - 1].name]
  }

  /** The position of `name` in a dict held as its entries in insertion
      order, or |d| when the name is not a key. */
  function Find(d: seq<StackSummary>, name: string): (k: nat)
    ensures k <= |d|
    ensures k < |d| ==> d[k].name == name
    ensures forall i :: 0 <= i < k ==> d[i].name != name
  {
    if d == [] then 0
    else if d[0].name == name then 0
    else 1 + Find(d[1..], name)
  }

  /** One step of the dedup loop: a new name is added at the end; a known
      name keeps its place and its entry is replaced only by a strictly
      later DeletionTime. */
  function Upsert(d: seq<StackSummary>, s: StackSummary): seq<StackSummary> {
    var k := Find(d, s.name);
    if k == |d| then d + [s]
    else if s.deletionTime > d[k].deletionTime then d[k := s]
    else d
  }

  /** `most_recent_only_dict` after the loop over the listing. */
  function MostRecent(stacks: seq<StackSummary>): seq<StackSummary> {
    if stacks == [] then [] else Upsert(MostRecent(stacks[..|stacks| - 1]), stacks[|stacks| - 1])
  }

  /** No name is a key twice. */
  ghost predicate DistinctNames(d: seq<StackSummary>) {
    forall i, j :: 0 <= i < j < |d| ==> d[i].name != d[j].name
  }

  /** `stacks[i]` is the first listed entry with the latest DeletionTime
      among the entries named like it. */
  ghost predicate FirstLatest(stacks: seq<StackSummary>, i: int)
    requires 0 <= i < |stacks|
  {
    forall j :: 0 <= j < |stacks| && stacks[j].name == stacks[i].name ==>
      stacks[j].deletionTime <= stacks[i].deletionTime && (j < i ==> stacks[j].deletionTime < stacks[i].deletionTime)
  }

  /** The first position holding `name` is at most any position holding it. */
  lemma {:induction false} FindAtMost(d: seq<StackSummary>, k: nat)
    requires k < |d|
    ensures Find(d, d[k].name) <= k
  {
    if k > 0 && d[0].name != d[k].name {
      assert d[1..][k - 1] == d[k];
      FindAtMost(d[1..], k - 1);
    }
  }

  lemma {:induction false} UpsertKeepsNames(d: seq<StackSummary>, s: StackSummary)
    ensures |d| <= |Upsert(d, s)| <= |d| + 1
    ensures forall k :: 0 <= k < |d| ==> Upsert(d, s)[k].name == d[k].name
    ensures Find(Upsert(d, s), s.name) < |Upsert(d, s)|
    ensures |Upsert(d, s)| == |d| + 1 ==> Upsert(d, s)[|d|] == s && Find(d, s.name) == |d|
  {
    var k := Find(d, s.name);
    var d' := Upsert(d, s);
    if k == |d| {
      FindAtMost(d', |d|);
    } else {
      FindAtMost(d', k);
    }
  }

  /** After the dedup loop every name is a key once. */
  lemma {:induction false} MostRecentDistinct(stacks: seq<StackSummary>)
    ensures DistinctNames(MostRecent(stacks))
  {
    if stacks != [] {
      var d := MostRecent(stacks[..|stacks| - 1]);
      var s := stacks[|stacks| - 1];
      MostRecentDistinct(stacks[..|stacks| - 1]);
      UpsertKeepsNames(d, s);
    }
  }

  /** Every listed name is a key after the dedup loop. */
  lemma {:induction false} MostRecentCovers(stacks: seq<StackSummary>, i: nat)
    requires i < |stacks|
    ensures Find(MostRecent(stacks), stacks[i].name) < |MostRecent(stacks)|
  {
    var init := stacks[..|stacks| - 1];
    var d := MostRecent(init);
    var s := stacks[|stacks| - 1];
    UpsertKeepsNames(d, s);
    if i < |init| {
      MostRecentCovers(init, i);
      assert init[i] == stacks[i];
      var k := Find(d, stacks[i].name);
      assert Upsert(d, s)[k].name == stacks[i].name;
    }
  }

  /** A later entry under another name, or with no later DeletionTime,
      leaves a first-latest entry first-latest. */
  lemma {:induction false} FirstLatestExtend(stacks: seq<StackSummary>, i: nat)
    requires 0 < |stacks| && i < |stacks| - 1
    requires FirstLatest(stacks[..|stacks| - 1], i)
    requires stacks[|stacks| - 1].name == stacks[i].name ==> stacks[|stacks| - 1].deletionTime <= stacks[i].deletionTime
    ensures FirstLatest(stacks, i)
  {
    var init := stacks[..|stacks| - 1];
    forall j | 0 <= j < |stacks| && stacks[j].name == stacks[i].name
      ensures stacks[j].deletionTime <= stacks[i].deletionTime && (j < i ==> stacks[j].deletionTime < stacks[i].deletionTime)
    {
      if j < |init| {
        assert stacks[j] == init[j];
      }
    }
  }

  /** The last entry is first-latest when every earlier entry of its name
      has a strictly earlier DeletionTime. */
  lemma {:induction false} FirstLatestLast(stacks: seq<StackSummary>)
    requires 0 < |stacks|
    requires forall j :: 0 <= j < |stacks| - 1 && stacks[j].name == stacks[|stacks| - 1].name ==>
      stacks[j].deletionTime < stacks[|stacks| - 1].deletionTime
    ensures FirstLatest(stacks, |stacks| - 1)
  {
  }

  /** The entry kept for each name is a listed entry with the latest
      DeletionTime of that name, and on a tie the first listed one: the
      comparison is a strict `>`. */
  lemma {:induction false} MostRecentKeepsFirstLatest(stacks: seq<StackSummary>, k: nat) returns (i: nat)
    requires k < |MostRecent(stacks)|
    ensures i < |stacks| && MostRecent(stacks)[k] == stacks[i] && FirstLatest(stacks, i)
  {
    var n := |stacks| - 1;
    var init := stacks[..n];
    var d := MostRecent(init);
    var s := stacks[n];
    assert MostRecent(stacks) == Upsert(d, s);
    var f := Find(d, s.name);
    MostRecentDistinct(init);
    if f == |d| {
      if k < |d| {
        i := MostRecentKeepsFirstLatest(init, k);
        assert stacks[i] == init[i];
        FirstLatestExtend(stacks, i);
      } else {
        forall j | 0 <= j < n
          ensures stacks[j].name != s.name
        {
          assert stacks[j] == init[j];
          MostRecentCovers(init, j);
        }
        FirstLatestLast(stacks);
        i := n;
      }
    } else {
      var i0 := MostRecentKeepsFirstLatest(init, f);
      assert stacks[i0] == init[i0];
      if k == f && s.deletionTime > d[f].deletionTime {
        forall j | 0 <= j < n && stacks[j].name == s.name
          ensures stacks[j].deletionTime < s.deletionTime
        {
          assert stacks[j] == init[j];
        }
        FirstLatestLast(stacks);
        i := n;
      } else {
        i := MostRecentKeepsFirstLatest(init, k);
        assert stacks[i] == init[i];
        assert d[k].name == s.name ==> k == f;
        FirstLatestExtend(stacks, i);
      }
    }
  }

  /** The dedup loop over the listing. */
  method MostRecentOnly(stacks: seq<StackSummary>) returns (d: seq<StackSummary>)
    ensures d == MostRecent(stacks)
  {
    d := [];
    for i := 0 to |stacks|
      invariant d == MostRecent(stacks[..i])
    {
      var s := stacks[i];
      assert stacks[..i + 1][..i] == stacks[..i];
      var k := Find(d, s.name);
      if k < |d| {
        if s.deletionTime > d[k].deletionTime {
          d := d[k := s];
        }
      } else {
        d := d + [s];
      }
    }
    assert stacks[..|stacks|] == stacks;
  }

  // ---------------------------------------------------------------------
  // Root stacks only
  // ---------------------------------------------------------------------

  /** The entries of `d`, in order, whose names are not nested relative to
      `names`. */
  function RootsOf(d: seq<StackSummary>, names: seq<string>): seq<StackSummary> {
    if d == [] then []
    else RootsOf(d[..|d| - 1], names) + (if IsNestedName(names, d[|d| - 1].name) then [] else [d[|d| - 1]])
  }

  /** The roots are exactly the entries not nested relative to the whole
      key set. */
  lemma {:induction false} RootsOfExact(d: seq<StackSummary>, names: seq<string>, e: StackSummary)
    ensures e in RootsOf(d, names) <==> e in d && !IsNestedName(names, e.name)
  {
    if d != [] {
      var init := d[..|d| - 1];
      RootsOfExact(init, names, e);
      if e in init {
        assert e in d;
      }
      if e in d && e != d[|d| - 1] {
        var i :| 0 <= i < |d| && d[i] == e;
        assert init[i] == e;
      }
    }
  }

  /** Of two kept root names, neither is the other followed by a dash and
      more. */
  lemma {:induction false} RootsNotNested(d: seq<StackSummary>, a: StackSummary, b: StackSummary)
    requires a in RootsOf(d, Names(d)) && b in RootsOf(d, Names(d))
    ensures !StartsWith(a.name, b.name + "-")
  {
    RootsOfExact(d, Names(d), a);
    RootsOfExact(d, Names(d), b);
    IsNestedNameExact(Names(d), a.name);
    var i :| 0 <= i < |d| && d[i] == b;
    assert Names(d)[i] == b.name;
  }

  /** The root loop over the dict's keys, checked against all keys. */
  method RootStacksOnly(d: seq<StackSummary>) returns (roots: seq<StackSummary>)
    ensures roots == RootsOf(d, Names(d))
  {
    var names := Names(d);
    roots := [];
    for i := 0 to |d|
      invariant roots == RootsOf(d[..i], names)
    {
      assert d[..i + 1][..i] == d[..i];
      if !IsNestedName(names, d[i].name) {
        roots := roots + [d[i]];
      }
    }
    assert d[..|d|] == d;
  }

  // ---------------------------------------------------------------------
  // The stack_deletion_order tag of a root stack
  // ---------------------------------------------------------------------

  /** Every tag keyed `stack_deletion_order` before position `k` has a
      value int() reads as zero or less. */
  ghost predicate NonPositiveBefore(tags: seq<Tag>, k: int)
    requires 0 <= k <= |tags|
  {
    forall j :: 0 <= j < k && tags[j].key == StackOrderKey ==>
      ParseInt(tags[j].value).Some? && ParseInt(tags[j].value).value <= 0
  }

  /** The tag loop with `break`: the first tag keyed `stack_deletion_order`
      whose value is positive gives the order; a value int() rejects raises
      ValueError; a value of zero or less is passed over. */
  function PickOrder(tags: seq<Tag>): Result<Option<int>> {
    if tags == [] then Success(None)
    else if tags[0].key != StackOrderKey then PickOrder(tags[1..])
    else match ParseInt(tags[0].value)
      case None => Failure(ValueError(tags[0].value))
      case Some(v) => if v > 0 then Success(Some(v)) else PickOrder(tags[1..])
  }

  lemma {:induction false} NonPositiveBeforeTail(tags: seq<Tag>, k: nat)
    requires 0 < k <= |tags| && NonPositiveBefore(tags, k)
    ensures NonPositiveBefore(tags[1..], k - 1)
  {
    forall j | 0 <= j < k - 1 && tags[1..][j].key == StackOrderKey
      ensures ParseInt(tags[1..][j].value).Some? && ParseInt(tags[1..][j].value).value <= 0
    {
      assert tags[1..][j] == tags[j + 1];
    }
  }

  /** The order picked is the value of the first tag keyed
      `stack_deletion_order` that is not zero or less. */
  lemma {:induction false} PickOrderFirstPositive(tags: seq<Tag>, k: nat)
    requires k < |tags| && tags[k].key == StackOrderKey && NonPositiveBefore(tags, k)
    requires ParseInt(tags[k].value).Some? && ParseInt(tags[k].value).value > 0
    ensures PickOrder(tags) == Success(Some(ParseInt(tags[k].value).value))
  {
    if k > 0 {
      NonPositiveBeforeTail(tags, k);
      PickOrderFirstPositive(tags[1..], k - 1);
    }
  }

  /** A value int() rejects, met before any positive one, raises. */
  lemma {:induction false} PickOrderRaises(tags: seq<Tag>, k: nat)
    requires k < |tags| && tags[k].key == StackOrderKey && NonPositiveBefore(tags, k)
    requires ParseInt(tags[k].value).None?
    ensures PickOrder(tags) == Failure(ValueError(tags[k].value))
  {
    if k > 0 {
      NonPositiveBeforeTail(tags, k);
      PickOrderRaises(tags[1..], k - 1);
    }
  }

  /** No order is picked exactly when every tag keyed
      `stack_deletion_order` reads as zero or less. */
  lemma {:induction false} PickOrderNone(tags: seq<Tag>)
    ensures PickOrder(tags) == Success(None) <==> NonPositiveBefore(tags, |tags|)
  {
    if tags != [] {
      PickOrderNone(tags[1..]);
      if NonPositiveBefore(tags, |tags|) {
        NonPositiveBeforeTail(tags, |tags|);
      }
      if NonPositiveBefore(tags[1..], |tags| - 1) && (tags[0].key == StackOrderKey ==> ParseInt(tags[0].value).Some? && ParseInt(tags[0].value).value <= 0) {
        forall j | 0 <= j < |tags| && tags[j].key == StackOrderKey
          ensures ParseInt(tags[j].value).Some? && ParseInt(tags[j].value).value <= 0
        {
          if j > 0 {
            assert tags[j] == tags[1..][j - 1];
          }
        }
      }
    }
  }

  /** The tag loop of one stack, leaving at `break`. */
  method PickOrderLoop(tags: seq<Tag>) returns (r: Result<Option<int>>)
    ensures r == PickOrder(tags)
  {
    var j := 0;
    while j < |tags|
      invariant 0 <= j <= |tags|
      invariant PickOrder(tags) == PickOrder(tags[j..])
    {
      var tag := tags[j];
      assert tags[j..][1..] == tags[j + 1..];
      if tag.key == StackOrderKey {
        var v := ParseInt(tag.value);
        if v.None? {
          return Failure(ValueError(tag.value));
        }
        if v.value > 0 {
          return Success(Some(v.value));
        }
      }
      j := j + 1;
    }
    r := Success(None);
  }

  // ---------------------------------------------------------------------
  // get_stack_names_and_creation_order
  // ---------------------------------------------------------------------

  /** What describe_stacks(StackName=StackId) returns for a deleted stack. A
      stack without Tags has the empty list here. */
  datatype DescribedStack = DescribedStack(name: string, id: string, deletionTime: int, tags: seq<Tag>)

  /** The dict the start script builds per stack to recreate. */
  datatype CreationRecord = CreationRecord(name: string, id: string, order: int, deletionTime: int, tags: seq<Tag>)

  function CreationOrder(r: CreationRecord): int {
    r.order
  }

  /** The scan of one root stack: its description, then its tags. */
  function CreationScan(describe: string -> Result<DescribedStack>, root: StackSummary): (s: Scan<CreationRecord>)
    ensures |s.found| <= 1
  {
    match describe(root.id)
    case Failure(e) => Scan([], Some(e))
    case Success(st) =>
      match PickOrder(st.tags)
      case Failure(e) => Scan([], Some(e))
      case Success(None) => Scan([], None)
      case Success(Some(v)) => Scan([CreationRecord(st.name, st.id, v, st.deletionTime, st.tags)], None)
  }

  /** The roots of the deduplicated listing. */
  function RootStacks(stacks: seq<StackSummary>): seq<StackSummary> {
    var d := MostRecent(stacks);
    RootsOf(d, Names(d))
  }

  /** The whole discovery: the listing's exception, or dedup, roots, and the
      tag scan of every root. */
  function StartDiscovery(listing: Result<seq<StackSummary>>, describe: string -> Result<DescribedStack>): Scan<CreationRecord> {
    if listing.Failure? then Scan([], Some(listing.error))
    else Discover(RootStacks(listing.value), root => CreationScan(describe, root))
  }

  /** Every record discovered comes from a root stack (deduplicated and not
      nested), whose description has a tag keyed `stack_deletion_order` that
      gives the record's positive order; a root gives at most one record. */
  lemma {:induction false} StartDiscoverySound(stacks: seq<StackSummary>, describe: string -> Result<DescribedStack>, r: CreationRecord)
    returns (root: StackSummary)
    requires r in StartDiscovery(Success(stacks), describe).found
    ensures root in MostRecent(stacks) && !IsNestedName(Names(MostRecent(stacks)), root.name)
    ensures describe(root.id) == Success(DescribedStack(r.name, r.id, r.deletionTime, r.tags))
    ensures PickOrder(r.tags) == Success(Some(r.order)) && r.order > 0
    ensures |StartDiscovery(Success(stacks), describe).found| <= |RootStacks(stacks)|
  {
    var scanOf := root => CreationScan(describe, root);
    var roots := RootStacks(stacks);
    var i := DiscoverSound(roots, scanOf, r);
    root := roots[i];
    RootsOfExact(MostRecent(stacks), Names(MostRecent(stacks)), root);
    var _ := DiscoverAtMostOne(roots, scanOf);
    assert r in CreationScan(describe, root).found;
    CreationScanFound(describe, root, r);
  }

  /** A record from one root's scan is that root's description with its
      picked order. */
  lemma {:induction false} CreationScanFound(describe: string -> Result<DescribedStack>, root: StackSummary, r: CreationRecord)
    requires r in CreationScan(describe, root).found
    ensures describe(root.id) == Success(DescribedStack(r.name, r.id, r.deletionTime, r.tags))
    ensures PickOrder(r.tags) == Success(Some(r.order)) && r.order > 0
  {
    var st := describe(root.id).value;
    PickOrderPositive(st.tags);
  }

  lemma {:induction false} PickOrderPositive(tags: seq<Tag>)
    ensures PickOrder(tags).Success? && PickOrder(tags).value.Some? ==> PickOrder(tags).value.value > 0
  {
    if tags != [] {
      PickOrderPositive(tags[1..]);
    }
  }

  /** The loop over the roots: a raising description or tag value ends it,
      and then nothing is returned. */
  method GetStackNamesAndCreationOrder(listing: Result<seq<StackSummary>>, describe: string -> Result<DescribedStack>)
    returns (result: Result<seq<CreationRecord>>)
    ensures var d := StartDiscovery(listing, describe);
      result == if d.error.Some? then Failure(d.error.value) else Success(d.found)
  {
    if listing.Failure? {
      return Failure(listing.error);
    }
    var d := MostRecentOnly(listing.value);
    var roots := RootStacksOnly(d);
    var scanOf := root => CreationScan(describe, root);
    var found: seq<CreationRecord> := [];
    for i := 0 to |roots|
      invariant Discover(roots[..i], scanOf) == Scan(found, None)
    {
      DiscoverNext(roots, scanOf, i);
      var described := describe(roots[i].id);
      if described.Failure? {
        DiscoverPrefix(roots, scanOf, i + 1);
        return Failure(described.error);
      }
      var st := described.value;
      var picked := PickOrderLoop(st.tags);
      if picked.Failure? {
        DiscoverPrefix(roots, scanOf, i + 1);
        return Failure(picked.error);
      }
      if picked.value.Some? {
        found := found + [CreationRecord(st.name, st.id, picked.value.value, st.deletionTime, st.tags)];
      }
    }
    assert roots[..|roots|] == roots;
    result := Success(found);
  }

  // ---------------------------------------------------------------------
  // get_stack_template_and_create_template
  // ---------------------------------------------------------------------

  /** The parameters the create request is given: the saved record's
      `stack_parameters`; the empty list when the state object cannot be
      read (here: no object under the stack's name); a saved document
      without that key raises KeyError when the request is built. */
  function SavedParameters(state: map<string, StateRecord>, name: string): (r: Result<seq<Parameter>>)
    ensures name !in state ==> r == Success([])
    ensures r.Failure? <==> name in state && state[name].EnvState?
  {
    if name !in state then Success([])
    else match state[name]
      case StackState(rec) => Success(rec.parameters)
      case EnvState(_) => Failure(KeyError("stack_parameters"))
  }

  /** How each attempt of the retry loop goes, by attempt number: whether
      create_stack raised, whether the stack_create_complete waiter
      succeeded, and how the delete_stack plus stack_delete_complete
      cleanup before the next attempt went. */
  datatype CreateOracle = CreateOracle(submit: nat -> Outcome, waitOk: nat -> bool, cleanup: nat -> Outcome)

  /** The retry loop from attempt `counter` on. An attempt sends create_stack
      (whose exception propagates) and waits; a successful wait leaves the
      loop; a failed wait in the last attempt re-raises the WaiterError;
      otherwise the stack is deleted, a failed deletion raising, and the
      next attempt follows. */
  function Attempts(name: string, params: seq<Parameter>, tags: seq<Tag>, counter: nat, o: CreateOracle): Run
    decreases Retries - counter
  {
    if counter >= Retries then Run([], Completed)
    else
      var create := CreateStack(name, params, tags);
      if o.submit(counter).Raise? then Run([create], o.submit(counter))
      else if o.waitOk(counter) then Run([create], Completed)
      else if counter == Retries - 1 then Run([create], Raise(WaiterError))
      else if o.cleanup(counter).Raise? then Run([create, DeleteStack(name)], o.cleanup(counter))
      else Then([create, DeleteStack(name)], Attempts(name, params, tags, counter + 1, o))
  }

  /** The attempt a raised exception came from. */
  ghost predicate RaisedBy(o: CreateOracle, from: nat, outcome: Outcome) {
    exists c :: from <= c < Retries && (outcome == o.submit(c) || outcome == o.cleanup(c))
  }

  lemma CountsPair(name: string, params: seq<Parameter>, tags: seq<Tag>)
    ensures Creates([CreateStack(name, params, tags), DeleteStack(name)]) == 1
    ensures Deletes([CreateStack(name, params, tags), DeleteStack(name)]) == 1
    ensures Creates([CreateStack(name, params, tags)]) == 1 && Deletes([CreateStack(name, params, tags)]) == 0
  {
    var create := CreateStack(name, params, tags);
    var pair := [create, DeleteStack(name)];
    assert [create][..0] == [];
    assert Creates([create]) == 1 && Deletes([create]) == 0;
    assert pair[..1] == [create];
    assert Creates(pair) == Creates([create]) + 0;
    assert Deletes(pair) == Deletes([create]) + 1;
  }

  /** The loop sends only this stack's create and delete requests. */
  lemma {:induction false} AttemptsRequests(name: string, params: seq<Parameter>, tags: seq<Tag>, counter: nat, o: CreateOracle)
    ensures forall e :: e in Attempts(name, params, tags, counter, o).effects ==> e == CreateStack(name, params, tags) || e == DeleteStack(name)
    decreases Retries - counter
  {
    if counter < Retries && !(o.submit(counter).Raise? || o.waitOk(counter) || counter == Retries - 1 || o.cleanup(counter).Raise?) {
      AttemptsRequests(name, params, tags, counter + 1, o);
    }
  }

  /** At most `budget` creates, no more deletes than creates and at most
      one create more; a completed run leaves exactly one more. */
  ghost predicate Shaped(r: Run, budget: nat) {
    Creates(r.effects) <= budget &&
    Deletes(r.effects) <= Creates(r.effects) <= Deletes(r.effects) + 1 &&
    (r.outcome.Completed? ==> Creates(r.effects) == Deletes(r.effects) + 1)
  }

  /** A failed attempt (one create, one delete) in front of a shaped rest
      keeps the shape with one more attempt. */
  lemma PairThenShaped(pair: seq<Effect>, rest: Run, budget: nat)
    requires Creates(pair) == 1 && Deletes(pair) == 1
    requires Shaped(rest, budget)
    ensures Shaped(Then(pair, rest), budget + 1)
  {
    CountsConcat(pair, rest.effects);
  }

  /** At most one create per remaining attempt, and each delete follows a
      create; a loop that completed leaves one create more than deletes, so
      the stack exists. */
  lemma {:induction false} AttemptsShape(name: string, params: seq<Parameter>, tags: seq<Tag>, counter: nat, o: CreateOracle)
    requires counter < Retries
    ensures Shaped(Attempts(name, params, tags, counter, o), Retries - counter)
    decreases Retries - counter
  {
    CountsPair(name, params, tags);
    var create := CreateStack(name, params, tags);
    var r := Attempts(name, params, tags, counter, o);
    if o.submit(counter).Raise? || o.waitOk(counter) || counter == Retries - 1 {
      assert r.effects == [create];
    } else if o.cleanup(counter).Raise? {
      assert r.effects == [create, DeleteStack(name)];
    } else {
      var rest := Attempts(name, params, tags, counter + 1, o);
      assert r == Then([create, DeleteStack(name)], rest);
      AttemptsShape(name, params, tags, counter + 1, o);
      PairThenShaped([create, DeleteStack(name)], rest, Retries - counter - 1);
    }
  }

  /** An exception that leaves the loop is the WaiterError of the last
      attempt or one that a create or delete request raised. */
  lemma {:induction false} AttemptsRaise(name: string, params: seq<Parameter>, tags: seq<Tag>, counter: nat, o: CreateOracle)
    ensures var r := Attempts(name, params, tags, counter, o);
      r.outcome.Raise? ==> r.outcome == Raise(WaiterError) || RaisedBy(o, counter, r.outcome)
    decreases Retries - counter
  {
    var r := Attempts(name, params, tags, counter, o);
    if counter >= Retries {
    } else if o.submit(counter).Raise? {
      assert r.outcome == o.submit(counter);
    } else if o.waitOk(counter) || counter == Retries - 1 {
    } else if o.cleanup(counter).Raise? {
      assert r.outcome == o.cleanup(counter);
    } else {
      var rest := Attempts(name, params, tags, counter + 1, o);
      assert r.outcome == rest.outcome;
      AttemptsRaise(name, params, tags, counter + 1, o);
      if rest.outcome.Raise? && rest.outcome != Raise(WaiterError) {
        var c :| counter + 1 <= c < Retries && (rest.outcome == o.submit(c) || rest.outcome == o.cleanup(c));
      }
    }
  }

  /** Attempts from `counter` to `k` fail their wait and are cleaned up, and
      attempt `k` succeeds: the loop completes after k - counter + 1 creates
      and k - counter deletes. */
  lemma {:induction false} AttemptsSucceedAt(name: string, params: seq<Parameter>, tags: seq<Tag>, counter: nat, o: CreateOracle, k: nat)
    requires counter <= k < Retries
    requires forall c :: counter <= c < k ==> o.submit(c).Completed? && !o.waitOk(c) && o.cleanup(c).Completed?
    requires o.submit(k).Completed? && o.waitOk(k)
    ensures var r := Attempts(name, params, tags, counter, o);
      r.outcome.Completed? && Creates(r.effects) == k - counter + 1 && Deletes(r.effects) == k - counter
    decreases k - counter
  {
    CountsPair(name, params, tags);
    if counter < k {
      var rest := Attempts(name, params, tags, counter + 1, o);
      AttemptsSucceedAt(name, params, tags, counter + 1, o, k);
      CountsConcat([CreateStack(name, params, tags), DeleteStack(name)], rest.effects);
    }
  }

  /** Every wait fails and every cleanup succeeds: three creates, two
      deletes, and the third WaiterError propagates. */
  lemma {:induction false} AttemptsAllFail(name: string, params: seq<Parameter>, tags: seq<Tag>, counter: nat, o: CreateOracle)
    requires counter < Retries
    requires forall c :: counter <= c < Retries ==> o.submit(c).Completed? && !o.waitOk(c)
    requires forall c :: counter <= c < Retries - 1 ==> o.cleanup(c).Completed?
    ensures var r := Attempts(name, params, tags, counter, o);
      r.outcome == Raise(WaiterError) && Creates(r.effects) == Retries - counter && Deletes(r.effects) == Retries - 1 - counter
    decreases Retries - counter
  {
    CountsPair(name, params, tags);
    if counter < Retries - 1 {
      var rest := Attempts(name, params, tags, counter + 1, o);
      AttemptsAllFail(name, params, tags, counter + 1, o);
      CountsConcat([CreateStack(name, params, tags), DeleteStack(name)], rest.effects);
    }
  }

  /** One stack: nothing when a stack of that name exists; otherwise the
      template is copied to the template bucket and the retry loop runs
      with the saved parameters and the stack's own tags. */
  function RecreateRun(templateBucket: string, stack: CreationRecord, present: bool, state: map<string, StateRecord>, o: CreateOracle): Run {
    if present then Run([], Completed)
    else
      var copy := CopyTemplate(templateBucket, stack.name);
      match SavedParameters(state, stack.name)
      case Failure(e) => Run([copy], Raise(e))
      case Success(params) => Then([copy], Attempts(stack.name, params, stack.tags, 0, o))
  }

  /** One pass of the creation loop: create, wait, and on a failed waiter
      delete before the next pass. `ended` is the outcome when the loop
      leaves here (a raised request, a waiter that succeeded, or the last
      waiter failing); None when it goes on. */
  method Attempt(name: string, params: seq<Parameter>, tags: seq<Tag>, counter: nat, o: CreateOracle)
    returns (step: seq<Effect>, ended: Option<Outcome>)
    requires counter < Retries
    ensures ended.Some? ==> Attempts(name, params, tags, counter, o) == Run(step, ended.value)
    ensures ended.None? ==> Attempts(name, params, tags, counter, o) == Then(step, Attempts(name, params, tags, counter + 1, o))
  {
    step := [CreateStack(name, params, tags)];
    var submitted := o.submit(counter);
    if submitted.Raise? {
      return step, Some(submitted);
    }
    if o.waitOk(counter) {
      return step, Some(Completed);
    }
    if counter == Retries - 1 {
      return step, Some(Raise(WaiterError));
    }
    step := step + [DeleteStack(name)];
    var cleaned := o.cleanup(counter);
    if cleaned.Raise? {
      return step, Some(cleaned);
    }
    ended := None;
  }

  /** `get_stack_template_and_create_template`. */
  method RecreateStack(templateBucket: string, stack: CreationRecord, present: bool, state: map<string, StateRecord>, o: CreateOracle)
    returns (run: Run)
    ensures run == RecreateRun(templateBucket, stack, present, state, o)
  {
    if present {
      return Run([], Completed);
    }
    var params := SavedParameters(state, stack.name);
    var effects := [CopyTemplate(templateBucket, stack.name)];
    if params.Failure? {
      return Run(effects, Raise(params.error));
    }
    for counter := 0 to Retries
      invariant RecreateRun(templateBucket, stack, present, state, o) == Then(effects, Attempts(stack.name, params.value, stack.tags, counter, o))
    {
      var step, ended := Attempt(stack.name, params.value, stack.tags, counter, o);
      ThenThen(effects, step, Attempts(stack.name, params.value, stack.tags, counter + 1, o));
      effects := effects + step;
      if ended.Some? {
        return Run(effects, ended.value);
      }
    }
    run := Run(effects, Completed);
  }

  /** The stop script saved `records` under their names and a start run reads
      that state: a stack recreated under one of those names is created with
      the parameters the stop run saved for it. */
  lemma SavedParametersRoundTrip(bucket: string, records: seq<StackRecord>, i: nat, templateBucket: string,
                                 stack: CreationRecord, o: CreateOracle)
    requires i < |records| && stack.name == records[i].name
    requires forall j, k :: 0 <= j < k < |records| ==> records[j].name != records[k].name
    ensures var r := RecreateRun(templateBucket, stack, false, Store(StackSaves(bucket, records), bucket), o);
      |r.effects| >= 2 &&
      r.effects[..2] == [CopyTemplate(templateBucket, stack.name), CreateStack(stack.name, records[i].parameters, stack.tags)]
  {
    var state := Store(StackSaves(bucket, records), bucket);
    SavedStacksReadBack(bucket, records, i);
    RecreateRunStarts(templateBucket, stack, state, o, records[i].parameters);
  }

  /** A missing stack whose saved parameters are `params` is recreated by
      copying its template and then sending create_stack with `params`. */
  lemma RecreateRunStarts(templateBucket: string, stack: CreationRecord, state: map<string, StateRecord>, o: CreateOracle,
                          params: seq<Parameter>)
    requires SavedParameters(state, stack.name) == Success(params)
    ensures var r := RecreateRun(templateBucket, stack, false, state, o);
      |r.effects| >= 2 &&
      r.effects[..2] == [CopyTemplate(templateBucket, stack.name), CreateStack(stack.name, params, stack.tags)]
  {
    var attempts := Attempts(stack.name, params, stack.tags, 0, o);
    assert |attempts.effects| >= 1 && attempts.effects[0] == CreateStack(stack.name, params, stack.tags);
    assert RecreateRun(templateBucket, stack, false, state, o) == Then([CopyTemplate(templateBucket, stack.name)], attempts);
  }

  /** The names of the templates copied by a trace, in order. */
  function CopiedNames(es: seq<Effect>): seq<string> {
    if es == [] then []
    else CopiedNames(es[..|es| - 1]) + (if es[|es| - 1].CopyTemplate? then [es[|es| - 1].stackName] else [])
  }

  lemma {:induction false} CopiedNamesConcat(a: seq<Effect>, b: seq<Effect>)
    ensures CopiedNames(a + b) == CopiedNames(a) + CopiedNames(b)
  {
    if b == [] {
      assert a + b == a;
    } else {
      assert (a + b)[..|a + b| - 1] == a + b[..|b| - 1];
      CopiedNamesConcat(a, b[..|b| - 1]);
    }
  }

  lemma {:induction false} CopiedNamesNone(es: seq<Effect>)
    requires forall e :: e in es ==> !e.CopyTemplate?
    ensures CopiedNames(es) == []
  {
    if es != [] {
      assert es[|es| - 1] in es;
      assert forall e :: e in es[..|es| - 1] ==> e in es;
      CopiedNamesNone(es[..|es| - 1]);
    }
  }

  /** One stack copies its own template, exactly when no stack of its name
      exists. */
  lemma RecreateRunCopies(templateBucket: string, stack: CreationRecord, present: bool, state: map<string, StateRecord>, o: CreateOracle)
    ensures CopiedNames(RecreateRun(templateBucket, stack, present, state, o).effects) == if present then [] else [stack.name]
  {
    if !present {
      var copy := CopyTemplate(templateBucket, stack.name);
      assert CopiedNames([copy]) == [stack.name] by {
        assert [copy][..0] == [];
      }
      var params := SavedParameters(state, stack.name);
      if params.Success? {
        var rest := Attempts(stack.name, params.value, stack.tags, 0, o);
        AttemptsRequests(stack.name, params.value, stack.tags, 0, o);
        CopiedNamesNone(rest.effects);
        CopiedNamesConcat([copy], rest.effects);
      }
    }
  }

  // ---------------------------------------------------------------------
  // create_deleted_tagged_cloudformation_stacks
  // ---------------------------------------------------------------------

  /** The names, in order, of the stacks for which no stack exists yet. */
  function ToCreate(stacks: seq<CreationRecord>, present: string -> bool): seq<string> {
    if stacks == [] then []
    else (if present(stacks[0].name) then [] else [stacks[0].name]) + ToCreate(stacks[1..], present)
  }

  /** The loop over the stacks: the first one that raises ends it. */
  function RecreateAll(templateBucket: string, stacks: seq<CreationRecord>, present: string -> bool,
                       state: map<string, StateRecord>, oracles: string -> CreateOracle): Run
  {
    if stacks == [] then Run([], Completed)
    else
      AndThen(RecreateRun(templateBucket, stacks[0], present(stacks[0].name), state, oracles(stacks[0].name)),
              RecreateAll(templateBucket, stacks[1..], present, state, oracles))
  }

  /** ys starts with xs. */
  predicate IsPrefix<T(==)>(xs: seq<T>, ys: seq<T>) {
    |xs| <= |ys| && ys[..|xs|] == xs
  }

  /** The templates are copied (and so the stacks recreated) one stack
      after another in the loop's order: a loop that completed handled
      every stack that did not exist yet, and one that raised handled a
      prefix of them. */
  lemma {:induction false} RecreateAllInOrder(templateBucket: string, stacks: seq<CreationRecord>, present: string -> bool,
                                              state: map<string, StateRecord>, oracles: string -> CreateOracle)
    ensures var r := RecreateAll(templateBucket, stacks, present, state, oracles);
      IsPrefix(CopiedNames(r.effects), ToCreate(stacks, present)) &&
      (r.outcome.Completed? ==> CopiedNames(r.effects) == ToCreate(stacks, present))
  {
    if stacks != [] {
      var first := RecreateRun(templateBucket, stacks[0], present(stacks[0].name), state, oracles(stacks[0].name));
      var rest := RecreateAll(templateBucket, stacks[1..], present, state, oracles);
      RecreateRunCopies(templateBucket, stacks[0], present(stacks[0].name), state, oracles(stacks[0].name));
      RecreateAllInOrder(templateBucket, stacks[1..], present, state, oracles);
      CopiedNamesConcat(first.effects, rest.effects);
    }
  }

  /** The CloudFormation phase: nothing when ASS_SKIP_CLOUDFORMATION is
      "1"; otherwise discovery, then the stacks in descending
      `stack_deletion_order` (a stable sort). */
  function StartCfnRun(skip: bool, listing: Result<seq<StackSummary>>, describe: string -> Result<DescribedStack>,
                       templateBucket: string, present: string -> bool, state: map<string, StateRecord>,
                       oracles: string -> CreateOracle): Run
  {
    if skip then Run([], Completed)
    else
      var d := StartDiscovery(listing, describe);
      if d.error.Some? then Run([], Raise(d.error.value))
      else RecreateAll(templateBucket, Sort(d.found, CreationOrder, true), present, state, oracles)
  }

  /** The stacks are handled highest `stack_deletion_order` first: the
      stop script deleted them lowest first, so dependencies come back
      before the stacks that use them. */
  lemma StartCfnDescending(skip: bool, listing: Result<seq<StackSummary>>, describe: string -> Result<DescribedStack>,
                           templateBucket: string, present: string -> bool, state: map<string, StateRecord>,
                           oracles: string -> CreateOracle)
    requires !skip
    requires StartDiscovery(listing, describe).error.None?
    ensures var sorted := Sort(StartDiscovery(listing, describe).found, CreationOrder, true);
      Sorted(sorted, CreationOrder, true) &&
      multiset(sorted) == multiset(StartDiscovery(listing, describe).found) &&
      StartCfnRun(skip, listing, describe, templateBucket, present, state, oracles) ==
        RecreateAll(templateBucket, sorted, present, state, oracles)
  {
  }

  lemma RecreateAllStep(templateBucket: string, stacks: seq<CreationRecord>, i: nat, present: string -> bool,
                        state: map<string, StateRecord>, oracles: string -> CreateOracle)
    requires i < |stacks|
    ensures RecreateAll(templateBucket, stacks[i..], present, state, oracles) ==
      AndThen(RecreateRun(templateBucket, stacks[i], present(stacks[i].name), state, oracles(stacks[i].name)),
              RecreateAll(templateBucket, stacks[i + 1..], present, state, oracles))
  {
    assert stacks[i..][1..] == stacks[i + 1..];
  }

  /** The loop over the sorted stacks. */
  method RecreateStacks(templateBucket: string, stacks: seq<CreationRecord>, present: string -> bool,
                        state: map<string, StateRecord>, oracles: string -> CreateOracle)
    returns (run: Run)
    ensures run == RecreateAll(templateBucket, stacks, present, state, oracles)
  {
    var effects: seq<Effect> := [];
    var i := 0;
    while i < |stacks|
      invariant 0 <= i <= |stacks|
      invariant RecreateAll(templateBucket, stacks, present, state, oracles) ==
        Then(effects, RecreateAll(templateBucket, stacks[i..], present, state, oracles))
    {
      RecreateAllStep(templateBucket, stacks, i, present, state, oracles);
      var one := RecreateStack(templateBucket, stacks[i], present(stacks[i].name), state, oracles(stacks[i].name));
      ThenAndThen(effects, one, RecreateAll(templateBucket, stacks[i + 1..], present, state, oracles));
      if one.outcome.Raise? {
        return Run(effects + one.effects, one.outcome);
      }
      effects := effects + one.effects;
      i := i + 1;
    }
    run := Run(effects, Completed);
  }

  /** `create_deleted_tagged_cloudformation_stacks`. */
  method CreateDeletedTaggedCloudformationStacks(skip: bool, listing: Result<seq<StackSummary>>, describe: string -> Result<DescribedStack>,
                                                 templateBucket: string, present: string -> bool, state: map<string, StateRecord>,
                                                 oracles: string -> CreateOracle)
    returns (run: Run)
    ensures run == StartCfnRun(skip, listing, describe, templateBucket, present, state, oracles)
  {
    if skip {
      return Run([], Completed);
    }
    var result := GetStackNamesAndCreationOrder(listing, describe);
    if result.Failure? {
      return Run([], Raise(result.error));
    }
    run := RecreateStacks(templateBucket, Sort(result.value, CreationOrder, true), present, state, oracles);
  }

  // ---------------------------------------------------------------------
  // Beanstalk environments
  // ---------------------------------------------------------------------

  /** One entry of describe_environments(IncludeDeleted=True). */
  datatype EnvSummary = EnvSummary(name: string, status: string)

  /** The saved documents of the terminated environments, in listing order.
      An environment whose state object cannot be read (here: no object
      under its name) is skipped. */
  function TerminatedRecords(envs: seq<EnvSummary>, state: map<string, StateRecord>): seq<StateRecord> {
    if envs == [] then []
    else
      var e := envs[|envs| - 1];
      TerminatedRecords(envs[..|envs| - 1], state) + (if e.status == TerminatedStatus && e.name in state then [state[e.name]] else [])
  }

  /** `e` is listed as terminated and its saved document is `r`. */
  predicate SavedTerminated(e: EnvSummary, state: map<string, StateRecord>, r: StateRecord) {
    e.status == TerminatedStatus && e.name in state && state[e.name] == r
  }

  /** Exactly the saved documents of terminated environments are kept. */
  lemma {:induction false} TerminatedRecordsExact(envs: seq<EnvSummary>, state: map<string, StateRecord>, r: StateRecord)
    ensures r in TerminatedRecords(envs, state) <==> exists i :: 0 <= i < |envs| && SavedTerminated(envs[i], state, r)
  {
    if envs != [] {
      var init := envs[..|envs| - 1];
      var last := envs[|envs| - 1];
      TerminatedRecordsExact(init, state, r);
      assert TerminatedRecords(envs, state) ==
        TerminatedRecords(init, state) + (if last.name in state && SavedTerminated(last, state, state[last.name]) then [state[last.name]] else []);
      if exists i :: 0 <= i < |init| && SavedTerminated(init[i], state, r) {
        var i :| 0 <= i < |init| && SavedTerminated(init[i], state, r);
        assert envs[i] == init[i];
      }
      if exists i :: 0 <= i < |envs| && SavedTerminated(envs[i], state, r) {
        var i :| 0 <= i < |envs| && SavedTerminated(envs[i], state, r);
        if i < |init| {
          assert init[i] == envs[i];
        }
      }
    }
  }

  /** The sort key of every document: `environment_deletion_order`, which a
      stack document lacks, so that sorted() raises KeyError before any
      environment is rebuilt. */
  function EnvKeys(records: seq<StateRecord>): (r: Result<seq<EnvRecord>>)
    ensures r.Success? <==> forall i :: 0 <= i < |records| ==> records[i].EnvState?
    ensures r.Success? ==> |r.value| == |records| && forall i :: 0 <= i < |records| ==> StateRecord.EnvState(r.value[i]) == records[i]
    ensures r.Failure? ==> r.error == KeyError(EnvOrderKey)
  {
    if records == [] then Success([])
    else
      var init := EnvKeys(records[..|records| - 1]);
      var last := records[|records| - 1];
      if init.Failure? then init
      else if last.StackState? then Failure(KeyError(EnvOrderKey))
      else Success(init.value + [last.env])
  }

  /** The rebuild loop: the first rebuild_environment that raises ends it. */
  function RebuildRun(envs: seq<EnvRecord>, rebuild: string -> Outcome): Run {
    if envs == [] then Run([], Completed)
    else
      var e := RebuildEnvironment(envs[0].id);
      if rebuild(envs[0].id).Raise? then Run([e], rebuild(envs[0].id))
      else Then([e], RebuildRun(envs[1..], rebuild))
  }

  /** The k-th request rebuilds the k-th environment, and a loop that
      completed rebuilt them all. */
  lemma {:induction false} RebuildRunInOrder(envs: seq<EnvRecord>, rebuild: string -> Outcome, k: nat)
    requires k < |RebuildRun(envs, rebuild).effects|
    ensures k < |envs| && RebuildRun(envs, rebuild).effects[k] == RebuildEnvironment(envs[k].id)
  {
    if k > 0 && rebuild(envs[0].id).Completed? {
      RebuildRunInOrder(envs[1..], rebuild, k - 1);
    }
  }

  lemma {:induction false} RebuildRunCompletes(envs: seq<EnvRecord>, rebuild: string -> Outcome)
    ensures RebuildRun(envs, rebuild).outcome.Completed? ==> |RebuildRun(envs, rebuild).effects| == |envs|
    ensures RebuildRun(envs, rebuild).outcome.Raise? ==> exists i :: 0 <= i < |envs| && RebuildRun(envs, rebuild).outcome == rebuild(envs[i].id)
  {
    if envs != [] && rebuild(envs[0].id).Completed? {
      RebuildRunCompletes(envs[1..], rebuild);
      if RebuildRun(envs[1..], rebuild).outcome.Raise? {
        var i :| 0 <= i < |envs| - 1 && RebuildRun(envs[1..], rebuild).outcome == rebuild(envs[1..][i].id);
        assert envs[1..][i] == envs[i + 1];
      }
    }
  }

  /** The Beanstalk phase: nothing when ASS_SKIP_ELASTICBEANSTALK is "1";
      otherwise the listing's exception propagates, and the saved documents
      are rebuilt in descending `environment_deletion_order`. */
  function StartEnvRun(skip: bool, listing: Result<seq<EnvSummary>>, state: map<string, StateRecord>, rebuild: string -> Outcome): Run {
    if skip then Run([], Completed)
    else if listing.Failure? then Run([], Raise(listing.error))
    else match EnvKeys(TerminatedRecords(listing.value, state))
      case Failure(e) => Run([], Raise(e))
      case Success(envs) => RebuildRun(Sort(envs, EnvOrder, true), rebuild)
  }

  /** An environment the stop run saved and the listing shows as terminated
      is rebuilt by a start phase that completed. */
  lemma StartEnvRebuildsSaved(listing: seq<EnvSummary>, state: map<string, StateRecord>, rebuild: string -> Outcome, i: nat, r: EnvRecord)
    requires i < |listing| && listing[i].status == TerminatedStatus
    requires listing[i].name in state && state[listing[i].name] == EnvState(r)
    requires StartEnvRun(false, Success(listing), state, rebuild).outcome.Completed?
    ensures RebuildEnvironment(r.id) in StartEnvRun(false, Success(listing), state, rebuild).effects
  {
    var records := TerminatedRecords(listing, state);
    TerminatedRecordsExact(listing, state, EnvState(r));
    var envs := EnvKeys(records).value;
    var j :| 0 <= j < |records| && records[j] == EnvState(r);
    assert envs[j] == r;
    var sorted := Sort(envs, EnvOrder, true);
    assert r in multiset(sorted);
    var k :| 0 <= k < |sorted| && sorted[k] == r;
    RebuildRunCompletes(sorted, rebuild);
    RebuildRunInOrder(sorted, rebuild, k);
  }

  /** `get_deleted_beanstalk_environment_names_and_creation_order`. */
  method GetDeletedEnvironments(envs: seq<EnvSummary>, state: map<string, StateRecord>) returns (result: seq<StateRecord>)
    ensures result == TerminatedRecords(envs, state)
  {
    result := [];
    for i := 0 to |envs|
      invariant result == TerminatedRecords(envs[..i], state)
    {
      assert envs[..i + 1][..i] == envs[..i];
      if envs[i].status == TerminatedStatus && envs[i].name in state {
        result := result + [state[envs[i].name]];
      }
    }
    assert envs[..|envs|] == envs;
  }

  /** `create_deleted_tagged_beanstalk_environments`. */
  method CreateDeletedTaggedBeanstalkEnvironments(skip: bool, listing: Result<seq<EnvSummary>>, state: map<string, StateRecord>,
                                                  rebuild: string -> Outcome)
    returns (run: Run)
    ensures run == StartEnvRun(skip, listing, state, rebuild)
  {
    if skip {
      return Run([], Completed);
    }
    if listing.Failure? {
      return Run([], Raise(listing.error));
    }
    var records := GetDeletedEnvironments(listing.value, state);
    var keyed := EnvKeys(records);
    if keyed.Failure? {
      return Run([], Raise(keyed.error));
    }
    run := RebuildEnvironments(Sort(keyed.value, EnvOrder, true), rebuild);
  }

  /** The loop of `create_deleted_tagged_beanstalk_environments`. */
  method RebuildEnvironments(envs: seq<EnvRecord>, rebuild: string -> Outcome) returns (run: Run)
    ensures run == RebuildRun(envs, rebuild)
  {
    var effects: seq<Effect> := [];
    var i := 0;
    while i < |envs|
      invariant 0 <= i <= |envs|
      invariant RebuildRun(envs, rebuild) == Then(effects, RebuildRun(envs[i..], rebuild))
    {
      assert envs[i..][1..] == envs[i + 1..];
      effects := effects + [RebuildEnvironment(envs[i].id)];
      var rebuilt := rebuild(envs[i].id);
      if rebuilt.Raise? {
        return Run(effects, rebuilt);
      }
      i := i + 1;
    }
    run := Run(effects, Completed);
  }

  // ---------------------------------------------------------------------
  // restore_s3_backup
  // ---------------------------------------------------------------------

  /** A bucket of list_buckets, its tagging, and how restore_bucket went. */
  datatype BackupBucket = BackupBucket(name: string, tagging: S3TagFetch, restoring: Outcome)

  /** The restore loop: a bucket for which s3_has_tag answers True is
      restored; an exception from the tag test or the restore ends it. */
  function RestoreRun(buckets: seq<BackupBucket>, backupKey: string): Run {
    if buckets == [] then Run([], Completed)
    else
      var b := buckets[0];
      match S3HasTag(b.tagging, backupKey, "yes")
      case Failure(e) => Run([], Raise(e))
      case Success(answer) =>
        if !Truthy(answer) then RestoreRun(buckets[1..], backupKey)
        else if b.restoring.Raise? then Run([RestoreBucket(b.name)], b.restoring)
        else Then([RestoreBucket(b.name)], RestoreRun(buckets[1..], backupKey))
  }

  /** Only buckets tagged with the backup key and "yes" are restored, and a
      pass that completed restored every one of them. */
  lemma {:induction false} RestoreRunExact(buckets: seq<BackupBucket>, backupKey: string, name: string)
    ensures RestoreBucket(name) in RestoreRun(buckets, backupKey).effects ==>
      exists i :: 0 <= i < |buckets| && buckets[i].name == name && buckets[i].tagging.TagSet? && Tag(backupKey, "yes") in buckets[i].tagging.tags
    ensures RestoreRun(buckets, backupKey).outcome.Completed? ==>
      forall i :: 0 <= i < |buckets| && buckets[i].name == name && buckets[i].tagging.TagSet? && Tag(backupKey, "yes") in buckets[i].tagging.tags ==>
        RestoreBucket(name) in RestoreRun(buckets, backupKey).effects
    ensures forall e :: e in RestoreRun(buckets, backupKey).effects ==> e.RestoreBucket?
  {
    if buckets != [] {
      var rest := buckets[1..];
      RestoreRunExact(rest, backupKey, name);
      if RestoreBucket(name) in RestoreRun(rest, backupKey).effects &&
         RestoreBucket(name) in RestoreRun(buckets, backupKey).effects && S3HasTag(buckets[0].tagging, backupKey, "yes").Success? {
        var i :| 0 <= i < |rest| && rest[i].name == name && rest[i].tagging.TagSet? && Tag(backupKey, "yes") in rest[i].tagging.tags;
        assert buckets[i + 1] == rest[i];
      }
      if RestoreRun(buckets, backupKey).outcome.Completed? {
        forall i | 0 <= i < |buckets| && buckets[i].name == name && buckets[i].tagging.TagSet? && Tag(backupKey, "yes") in buckets[i].tagging.tags
          ensures RestoreBucket(name) in RestoreRun(buckets, backupKey).effects
        {
          if i > 0 {
            assert rest[i - 1] == buckets[i];
          }
        }
      }
    }
  }

  /** `restore_s3_backup`: the listing's exception propagates. */
  method RestoreS3Backup(listing: Result<seq<BackupBucket>>, backupKey: string) returns (run: Run)
    ensures listing.Failure? ==> run == Run([], Raise(listing.error))
    ensures listing.Success? ==> run == RestoreRun(listing.value, backupKey)
  {
    if listing.Failure? {
      return Run([], Raise(listing.error));
    }
    var buckets := listing.value;
    var effects: seq<Effect> := [];
    var i := 0;
    while i < |buckets|
      invariant 0 <= i <= |buckets|
      invariant RestoreRun(buckets, backupKey) == Then(effects, RestoreRun(buckets[i..], backupKey))
    {
      assert buckets[i..][1..] == buckets[i + 1..];
      var b := buckets[i];
      var tagged := S3HasTag(b.tagging, backupKey, "yes");
      if tagged.Failure? {
        return Run(effects, Raise(tagged.error));
      }
      if Truthy(tagged.value) {
        effects := effects + [RestoreBucket(b.name)];
        if b.restoring.Raise? {
          return Run(effects, b.restoring);
        }
      }
      i := i + 1;
    }
    run := Run(effects, Completed);
  }

  // ---------------------------------------------------------------------
  // main
  // ---------------------------------------------------------------------

  /** What the AWS side answers during one start run. */
  datatype StartInputs = StartInputs(
    templateBucket: string, templateCreation: Outcome, templateRemoval: Outcome,
    skipRds: bool, instances: Result<seq<RdsItem>>, clusters: Result<seq<RdsItem>>, waitOk: string -> bool,
    skipCfn: bool, stackListing: Result<seq<StackSummary>>, describe: string -> Result<DescribedStack>,
    stackExists: string -> bool, oracles: string -> CreateOracle,
    skipBeanstalk: bool, envListing: Result<seq<EnvSummary>>, rebuild: string -> Outcome,
    bucketListing: Result<seq<BackupBucket>>,
    state: map<string, StateRecord>)

  /** The phases inside main's `try`, in order: the template bucket is
      created, then RDS, CloudFormation, Beanstalk and the S3 restore; the
      first exception ends the sequence. */
  function StartPhases(cfg: Config, inputs: StartInputs): Run
    reads cfg
  {
    var create := Run([CreateTemplateBucket(inputs.templateBucket)], inputs.templateCreation);
    var rds := StartTaggedRdsRun(inputs.skipRds, inputs.instances, inputs.clusters,
                                 cfg.FullAssTag(IncludeTag), cfg.FullAssTag(WaitTag), inputs.waitOk);
    var cfn := StartCfnRun(inputs.skipCfn, inputs.stackListing, inputs.describe, inputs.templateBucket,
                           inputs.stackExists, inputs.state, inputs.oracles);
    var env := StartEnvRun(inputs.skipBeanstalk, inputs.envListing, inputs.state, inputs.rebuild);
    var restore := if inputs.bucketListing.Failure? then Run([], Raise(inputs.bucketListing.error))
                   else RestoreRun(inputs.bucketListing.value, cfg.FullAssTag(BackupBucketTag));
    AndThen(AndThen(AndThen(AndThen(create, rds), cfn), env), restore)
  }

  /** `main`: an exception of the phases is logged and swallowed; the
      `finally` clause then removes the template bucket when its name is
      not empty, and only that removal can make main raise. */
  function StartMainRun(cfg: Config, inputs: StartInputs): (r: Run)
    reads cfg
  {
    var phases := StartPhases(cfg, inputs);
    if inputs.templateBucket != "" then Run(phases.effects + [RemoveTemplateBucket(inputs.templateBucket)], inputs.templateRemoval)
    else Run(phases.effects, Completed)
  }

  /** main never lets a phase's exception escape; the template bucket is
      created first and, when named, removed last, whatever the phases
      did. */
  lemma StartMainBrackets(cfg: Config, inputs: StartInputs)
    ensures var r := StartMainRun(cfg, inputs);
      r.outcome == (if inputs.templateBucket != "" then inputs.templateRemoval else Completed) &&
      |r.effects| >= 1 && r.effects[0] == CreateTemplateBucket(inputs.templateBucket) &&
      (inputs.templateBucket != "" ==> |r.effects| >= 2 && r.effects[|r.effects| - 1] == RemoveTemplateBucket(inputs.templateBucket))
  {
    var create := Run([CreateTemplateBucket(inputs.templateBucket)], inputs.templateCreation);
    var rds := StartTaggedRdsRun(inputs.skipRds, inputs.instances, inputs.clusters,
                                 cfg.FullAssTag(IncludeTag), cfg.FullAssTag(WaitTag), inputs.waitOk);
    var cfn := StartCfnRun(inputs.skipCfn, inputs.stackListing, inputs.describe, inputs.templateBucket,
                           inputs.stackExists, inputs.state, inputs.oracles);
    var env := StartEnvRun(inputs.skipBeanstalk, inputs.envListing, inputs.state, inputs.rebuild);
    var restore := if inputs.bucketListing.Failure? then Run([], Raise(inputs.bucketListing.error))
                   else RestoreRun(inputs.bucketListing.value, cfg.FullAssTag(BackupBucketTag));
    ChainHead(create, rds, cfn, env, restore);
  }

  /** A phase runs only when every earlier phase completed: when the
      template bucket cannot be created, no RDS, stack, environment or
      restore request is sent. */
  lemma StartMainStopsAtTemplateBucket(cfg: Config, inputs: StartInputs)
    requires inputs.templateCreation.Raise?
    ensures StartPhases(cfg, inputs) == Run([CreateTemplateBucket(inputs.templateBucket)], inputs.templateCreation)
  {
  }

  /** An RDS phase that raised, from a listing, a start request or a
      waiter, ends the phases: no stack, environment or restore request
      follows it. */
  lemma StartMainStopsAtRds(cfg: Config, inputs: StartInputs)
    requires inputs.templateCreation.Completed?
    requires StartTaggedRdsRun(inputs.skipRds, inputs.instances, inputs.clusters,
                               cfg.FullAssTag(IncludeTag), cfg.FullAssTag(WaitTag), inputs.waitOk).outcome.Raise?
    ensures StartPhases(cfg, inputs) ==
      Then([CreateTemplateBucket(inputs.templateBucket)],
           StartTaggedRdsRun(inputs.skipRds, inputs.instances, inputs.clusters,
                             cfg.FullAssTag(IncludeTag), cfg.FullAssTag(WaitTag), inputs.waitOk))
  {
  }

  /** `main` of the start script, with the configuration and the AWS object
      already built. */
  method StartMain(cfg: Config, inputs: StartInputs) returns (run: Run)
    ensures run == StartMainRun(cfg, inputs)
  {
    var includeKey, waitKey, backupKey := cfg.FullAssTag(IncludeTag), cfg.FullAssTag(WaitTag), cfg.FullAssTag(BackupBucketTag);
    var sofar := Run([CreateTemplateBucket(inputs.templateBucket)], inputs.templateCreation);
    if sofar.outcome.Completed? {
      var rds := StartTaggedRds(inputs.skipRds, inputs.instances, inputs.clusters, includeKey, waitKey, inputs.waitOk);
      sofar := Then(sofar.effects, rds);
    }
    if sofar.outcome.Completed? {
      var cfn := CreateDeletedTaggedCloudformationStacks(inputs.skipCfn, inputs.stackListing, inputs.describe, inputs.templateBucket,
                                                         inputs.stackExists, inputs.state, inputs.oracles);
      sofar := Then(sofar.effects, cfn);
    }
    if sofar.outcome.Completed? {
      var env := CreateDeletedTaggedBeanstalkEnvironments(inputs.skipBeanstalk, inputs.envListing, inputs.state, inputs.rebuild);
      sofar := Then(sofar.effects, env);
    }
    if sofar.outcome.Completed? {
      var restore := RestoreS3Backup(inputs.bucketListing, backupKey);
      sofar := Then(sofar.effects, restore);
    }
    assert sofar == StartPhases(cfg, inputs);
    if inputs.templateBucket != "" {
      run := Run(sofar.effects + [RemoveTemplateBucket(inputs.templateBucket)], inputs.templateRemoval);
    } else {
      run := Run(sofar.effects, Completed);
    }
  }
}

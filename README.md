# aws-ass stop/start orchestration, modelled in Dafny

aws-ass ("AWS stop/start") saves money on AWS test accounts. Resources are
torn down at night and rebuilt in the morning, and tags on the resources
say what takes part.

- **Stop** (`aws-ass-stop.py`):
  - saves every tagged CloudFormation stack's record to a per-account S3
    *state bucket*;
  - disables load-balancer access logs and empties their log buckets, and
    empties buckets tagged for cleaning;
  - deletes the stacks in ascending `stack_deletion_order`;
  - saves and terminates the Beanstalk environments tagged with
    `environment_deletion_order`;
  - stops the tagged RDS instances and clusters.
- **Start** (`aws-ass-start.py`) undoes all of that:
  - starts the tagged RDS resources, optionally waiting for instances;
  - recreates every deleted root stack that carries a positive order tag.
    It goes highest order first, uses the parameters saved in the state
    bucket and tries `create_stack` up to three times, deleting the failed
    stack between attempts;
  - rebuilds the terminated environments;
  - restores buckets tagged for backup;
  - always removes its template bucket at the end.
- **Legacy** (`aws-delete-tagged-cfn-stacks.py`) is the earlier stop
  script. Its deletion loop is commented out.
- **Shared classes:** `ASS/Config.py` and `ASS/AWS.py` hold the tag-prefix
  configuration, the state bucket name, the tag predicates and the
  bucket helpers.

Every AWS call is replaced by data. Listings are `Result` values. A
per-resource answer (a tag list, a describe result, the outcome of a
delete or a create) is a field of the listed item or a function
parameter. Each script phase returns a `Run`: the requests it issued, in
order (`Effect`), and whether it completed or raised (`Outcome`). Python
statement sequencing is `AndThen`. The contents of the state bucket are
computed from a trace of `SaveState` requests (`Effects.Store`), so what
stop writes can be read back by start.

Modules:
- `Common`: Option/Result, Python exceptions, `str()` of None;
- `Tags`: `resource_has_tag`, `s3_has_tag`, `int()` on tag values, the order-tag scan;
- `Ordering`: Python's stable `sorted`, ascending and reversed;
- `Effects`: records, requests, runs, the state bucket;
- `AssConfig`, `AssAws`: the two classes;
- `Rds`: both RDS loops;
- `Discovery`: a loop over listed resources that can raise;
- `AssStop`, `AssStart`, `LegacyStop`: the three scripts.

## Model

| member | source | states |
|---|---|---|
| AssConfig.Config.constructor | ASS/Config.py:7-10 | the tag prefix is `ASS_TAG_PREFIX` followed by `:` when the variable is set and empty otherwise; the flag starts False |
| AssConfig.Config.SetAssTagPrefix | ASS/Config.py:27-31 | prefix is the variable's value plus a colon, or "" when unset; nothing else changes |
| AssConfig.Config.FullAssTag | ASS/Config.py:24-25 | the full key starts with the prefix, ends with the tag and is exactly as long as both |
| AssConfig.Config.StateBucketName | ASS/Config.py:18-19 | the name is region, dash, account id, then `-stop-start-state-bucket` |
| AssConfig.FullAssTagInjective | ASS/Config.py:24-25 | one configuration never maps two different tags to the same full key |
| AssConfig.FullAssTagWithoutPrefix | ASS/Config.py:27-31 | without ASS_TAG_PREFIX the full key is the tag itself |
| AssConfig.FullAssTagWithPrefix | ASS/Config.py:27-31 | with ASS_TAG_PREFIX=p the full key is `p:` followed by the tag |
| AssConfig.StateBucketNameInjective | ASS/Config.py:18-19 | for dash-free account ids, the bucket name determines region and account |
| AssAws.Aws.constructor | ASS/AWS.py:7-12 | the object before `__init__` runs any step: no logger, no region, empty id, not authenticated |
| AssAws.Aws.SetLogger | ASS/AWS.py:14-18 | a logger is accepted iff its module is `logging`; otherwise it raises and the logger is unchanged |
| AssAws.Aws.SetAccountId | ASS/AWS.py:81-86 | a found id is stored and sets the auth flag; NoCredentialsError gives ""; any other exception propagates with nothing changed |
| AssAws.Aws.SetRegion | ASS/AWS.py:74-79 | the same policy for the session region, which may itself be None |
| AssAws.Aws.Create | ASS/AWS.py:7-12 | construction succeeds iff the logger is valid and neither lookup raised; the first raising step's exception is the result; the auth flag is set iff a lookup found a value |
| AssAws.Aws.CreateStateBucketAsWritten | ASS/AWS.py:88-100 | as written: a bucket listing that raised is re-raised; a listed bucket completes with no request; an unlisted one raises NameError (`aws` is undefined) and creates nothing |
| AssAws.Aws.CreateStateBucket | aws-delete-tagged-cfn-stacks.py:353-366 | corrected: a bucket listing that raised is re-raised with no request; a listed bucket gets no request; otherwise one create request in the object's region, whose outcome is the call's |
| AssAws.CreateStateBucketDiscrepancy | ASS/AWS.py:97 | for a bucket that does not exist, the code as written raises while the corrected one creates it |
| AssAws.CreateStateBucketListedAgree | ASS/AWS.py:91-100 | both versions agree when the bucket listing raises or lists the bucket |
| AssAws.EmptyBucketPolicy | ASS/AWS.py:20-33 | success iff the deletion completed; NoSuchBucket is warned about and other ClientErrors swallowed; every non-ClientError is re-raised unchanged |
| Tags.TagListHas | ASS/AWS.py:58-62 | the search loop answers true iff the exact key/value pair is in the list |
| Tags.ResourceHasTag | ASS/AWS.py:53-66 | true iff the tag fetch succeeded and contains the pair; a fetch that raised gives false |
| Tags.S3HasTag | ASS/AWS.py:38-51 | True iff the TagSet has the pair; False on ClientError; None when the TagSet lacks it; other exceptions propagate |
| Tags.ParseIntRoundTrip | aws-ass-stop.py:30-31 | `int()` reads back the decimal text of every integer |
| Tags.ParseIntRejectsWords | aws-ass-stop.py:30-31 | `int()` raises on any value without a digit, such as "yes", "" or only white space |
| Tags.ScanOrdersFoundSound | aws-ass-stop.py:29-43 | every order found is positive and comes from a tag with the order key |
| Tags.ScanOrdersComplete | aws-ass-stop.py:29-43 | without an error, every order-key tag parses, and each positive value is found |
| Tags.ScanOrdersErrorWitness | aws-ass-stop.py:30-31 | a scan that raised met an order-key tag whose value `int()` rejects |
| Ordering.Sort | aws-ass-stop.py:279 | `sorted` output is ordered by the key (descending with `reverse=True`), is a permutation of the input, and keeps the input order of equal keys |
| Ordering.StableSortUnique | aws-ass-start.py:362 | there is only one stable ordered permutation, so Sort is Python's `sorted` |
| Ordering.ReverseSortMirrorsSort | aws-ass-start.py:362 | with distinct keys, the start script's descending order is the exact reverse of the stop script's ascending one |
| Ordering.ReverseSorted | aws-ass-start.py:362 | an ascending order read backwards is descending |
| Effects.StoreKeys | aws-ass-stop.py:286-299 | the state bucket holds exactly the keys some `put_object` wrote |
| Effects.StoreLastWrite | aws-ass-stop.py:292-294 | the object under a key is the last record written to it |
| Effects.SavedStacksReadBack | aws-ass-start.py:165-178 | a record the stop run saved under a distinct name is read back unchanged by the start run |
| Effects.ThenAndThen | aws-ass-stop.py:279-281 | a loop that has issued a prefix either stops with the step's exception or continues after the step's requests |
| Effects.CountsConcat | aws-ass-start.py:198-240 | create and delete counts add up over concatenated traces |
| Rds.Decide | aws-ass-stop.py:237-253 | act iff the first tag call finds `stop_or_start_with_cfn_stacks` or the second finds the include key, each with "yes", the status is the required one and the item is not an instance inside a cluster; each skip reason is exact |
| Rds.FailedTagFetchSkips | ASS/AWS.py:63-64 | an item both of whose include tag calls raised is never acted on |
| Rds.FirstTagFetchFailing | aws-ass-stop.py:237-238 | when only the first include tag call raised, the item is acted on iff the second call finds the include key with "yes" and the status and cluster tests pass |
| Rds.StopStep | aws-ass-stop.py:237-253 | one item: an accepted item gets its kind's stop request, a skipped one none; a raise is the accepted item's own request failing |
| Rds.StopLoopExact | aws-ass-stop.py:231-257 | a stop request is issued for an item iff the loop decides to act on it and every earlier request went through |
| Rds.StopLoopOutcome | aws-ass-stop.py:231-257 | a raise is the ClientError of some accepted item's stop request, reached after every earlier item; a completed loop reached every item |
| Rds.StopLoopComplete | aws-ass-stop.py:231-253 | a stop loop that completed sent a stop request for every accepted item |
| Rds.StopItem | aws-ass-stop.py:237-253 | the loop body sends exactly that step's request and ends with its outcome |
| Rds.StopRds | aws-ass-stop.py:219-264 | a listing that raised propagates with no requests; otherwise the stop loop, which ends at the first stop request that raises |
| Rds.StopTaggedRds | aws-ass-stop.py:266-268 | instances first, then clusters; an exception from the instance listing or an instance stop request prevents the cluster pass, and one from the cluster listing follows the instance requests |
| Rds.StopTaggedRdsRequests | aws-ass-stop.py:248-251 | every request of the RDS path stops an accepted item of a listing that succeeded, of the kind being listed |
| Rds.StartLoopSound | aws-ass-start.py:272-317 | only accepted items are started; only accepted instances tagged to wait are waited on; an exception is an accepted item's failed start request or an instance WaiterError |
| Rds.StartLoopComplete | aws-ass-start.py:277-309 | a start loop that completed started every accepted item and waited for every accepted instance tagged to wait |
| Rds.StartStep | aws-ass-start.py:277-317 | one item: only an accepted item is started, a failed start request raises before any wait, an accepted instance tagged to wait whose start request went through is waited for and nothing else is, a failed waiter raises WaiterError, and an accepted item is always started |
| Rds.FailedWaitFetchesSkipWait | aws-ass-start.py:297-299 | an item both of whose wait tag calls raised is not waited for |
| Rds.StartItem | aws-ass-start.py:277-317 | the loop body sends exactly that step's requests and ends with its outcome |
| Rds.StartRds | aws-ass-start.py:259-332 | a listing that raised propagates with no requests; otherwise the start loop, which ends at the first start request or waiter that raises |
| Rds.StartTaggedRds | aws-ass-start.py:253-336 | nothing when ASS_SKIP_RDS is set; otherwise instances then clusters, and a raise in the instance pass, from its listing, a start request or a waiter, prevents the cluster pass |
| Discovery.DiscoverSound | aws-ass-stop.py:27-43 | every record found comes from some listed item's own scan |
| Discovery.DiscoverComplete | aws-ass-stop.py:27-43 | a discovery without exception contains every item's records |
| Discovery.DiscoverErrorWitness | aws-ass-stop.py:27-43 | a discovery that raised did so because some item's scan raised |
| Discovery.DiscoverAtMostOne | aws-ass-start.py:70-83 | when each item's scan yields at most one record, the records found come from strictly increasing item positions, one record per item, so there are at most as many records as items |
| AssStop.StackRecordsFor | aws-ass-stop.py:32-38 | one record per order value, each carrying the stack's name, id and Parameters (or [] when it has none) |
| AssStop.StackDiscoverySound | aws-ass-stop.py:15-44 | every record belongs to a listed stack without ParentId and carries a positive order from one of its tags |
| AssStop.StackDiscoveryComplete | aws-ass-stop.py:27-43 | with no exception, every positive order tag of every stack without ParentId yields its record |
| AssStop.StackDiscoveryError | aws-ass-stop.py:30-31 | discovery raises only ValueError, and only for an order tag `int()` rejects |
| AssStop.ScanStackTags | aws-ass-stop.py:29-43 | the tag loop of one stack yields the stack's scan and a save request per record, in order |
| AssStop.GetStackNamesAndDeletionOrder | aws-ass-stop.py:15-44 | returns the discovered records and issues exactly their save requests; a listing or tag error propagates |
| AssStop.EnvRecordsFor | aws-ass-stop.py:60-66 | one environment record per order value, carrying name, id and ARN |
| AssStop.EnvDiscoverySound | aws-ass-stop.py:47-67 | every environment record carries a positive order from one of its tags |
| AssStop.EnvDiscoveryComplete | aws-ass-stop.py:59-66 | with no exception, every positive order tag of every environment yields its record |
| AssStop.ScanEnvTags | aws-ass-stop.py:60-66 | the tag loop of one environment yields the environment's scan |
| AssStop.GetBeanstalkEnvNamesAndDeletionOrder | aws-ass-stop.py:47-67 | returns the discovered environment records; a listing or tag error propagates |
| AssStop.LbAccessLogBucket | aws-ass-stop.py:103-123 | "" when no attribute has the access-log key |
| AssStop.AccessLogAttributesNone | aws-ass-stop.py:116-120 | the filter keeps nothing iff no attribute has the key |
| AssStop.LbAccessLogBucketFirst | aws-ass-stop.py:116-123 | the bucket is the Value of the first attribute with the access-log key |
| AssStop.LbStep | aws-ass-stop.py:177-180 | one load balancer: its logs are disabled and only its non-empty log bucket is emptied; a completed step disabled its logs |
| AssStop.DisableAndEmpty | aws-ass-stop.py:177-180 | the loop body sends exactly that step's requests |
| AssStop.LbRunCoverage | aws-ass-stop.py:176-180 | a completed loop disabled every load balancer's logs; every emptied bucket is one of their log buckets |
| AssStop.EmptyLbAccessLogBuckets | aws-ass-stop.py:161-180 | a listing that raised propagates; otherwise the loop |
| AssStop.CleanRun | aws-ass-stop.py:202-209 | only emptying requests, each for a listed bucket whose tag test answered true |
| AssStop.CleanRunComplete | aws-ass-stop.py:202-209 | a cleaning loop that completed emptied every bucket whose tag test answered true |
| AssStop.S3Marked | aws-ass-stop.py:207 | a bucket is marked iff its TagSet has the clean key with "yes"; the test raises iff the tag fetch raised a non-ClientError |
| AssStop.EmptyTaggedS3Buckets | aws-ass-stop.py:183-209 | a listing that raised propagates with no requests; otherwise the cleaning loop, which ends at the first tag test that raises |
| AssStop.PreDeletion | aws-ass-stop.py:212-216 | the pre-deletion tasks only disable logs or empty buckets |
| AssStop.DoPreDeletionTasks | aws-ass-stop.py:212-216 | load balancers first, then tagged buckets; a raise in the first skips the second |
| AssStop.DeleteRun | aws-ass-stop.py:279-281 | at most one request per record; a completed loop issued one per record |
| AssStop.DeleteRunInOrder | aws-ass-stop.py:70-86 | the k-th request deletes the k-th record; the loop stops exactly after the first failed deletion |
| AssStop.DeleteStacks | aws-ass-stop.py:279-281 | the deletion loop over the sorted records |
| AssStop.DeleteTaggedCloudformationStacks | aws-ass-stop.py:271-283 | discovery with saves, then pre-deletion tasks, then deletion in ascending order |
| AssStop.DeletionAscending | aws-ass-stop.py:279 | of two delete requests, the earlier names a discovered record whose order is not above the later one's |
| AssStop.StopCfnPrefix | aws-ass-stop.py:271-283 | the run's requests are the saves, then possibly the pre-deletion requests, then possibly the deletions, cut where an exception stops it |
| AssStop.StopCfnStaged | aws-ass-stop.py:271-283 | every save precedes every pre-deletion request, which precedes every delete |
| AssStop.StopCfnSavedBeforeDeleted | aws-ass-stop.py:42 | every deleted stack was saved to the state bucket, under its name, earlier in the run |
| AssStop.SavedBeforeDeletedIn | aws-ass-stop.py:42 | in saves, then requests that delete nothing, then deletions of a permutation of the saved records, every deleted stack was saved earlier under its name |
| AssStop.EnvTerminateRunAsWritten | aws-ass-stop.py:302-318 | as written: a non-empty loop raises TypeError before any save or termination; an empty one completes |
| AssStop.EnvTerminateRun | aws-ass-stop.py:327-329 | corrected loop: at most two requests per environment, and exactly two when it completes |
| AssStop.EnvTerminateRunPairs | aws-ass-stop.py:327-329 | requests 2k and 2k+1 are the save and then the termination of environment k |
| AssStop.EnvTerminateDiscrepancy | aws-ass-stop.py:304 | for one environment, the code as written raises and terminates nothing; the corrected loop saves it and terminates it |
| AssStop.TerminateEnvironments | aws-ass-stop.py:327-329 | corrected (see Findings): the save-and-terminate loop, each environment's state saved, then the environment terminated |
| AssStop.DeleteTaggedBeanstalkEnvironments | aws-ass-stop.py:321-333 | corrected (see Findings): discovery, then save-and-terminate in ascending order |
| AssStop.EnvTerminateRunSavedBefore | aws-ass-stop.py:327-329 | corrected loop: every termination request is directly preceded by the save of the same environment's record |
| AssStop.StopEnvSavedBeforeTerminated | aws-ass-stop.py:327-329 | corrected loop: every terminated environment is a discovered one, saved by the request just before |
| AssStop.StateBucketOf | ASS/Config.py:18-19 | the bucket name starts with `str(region)` and a dash, and ends with the fixed suffix |
| AssStop.StopMain | aws-ass-stop.py:352-371 | main runs state bucket creation (whose bucket listing can raise), then CloudFormation, Beanstalk and RDS; the first exception, including a failed RDS stop request, ends the run |
| AssStart.IsNestedNameExact | aws-ass-start.py:17-32 | a name is nested iff it starts with some listed name followed by a dash |
| AssStart.NestedUnderShorterName | aws-ass-start.py:26-32 | a nested name is nested under a different, strictly shorter name, never under itself |
| AssStart.Find | aws-ass-start.py:56 | the key's first position, or the end when absent; no earlier entry has the key |
| AssStart.MostRecentDistinct | aws-ass-start.py:54-60 | after the dedup loop each name is a key once |
| AssStart.MostRecentCovers | aws-ass-start.py:54-60 | every listed name is a key after the dedup loop |
| AssStart.MostRecentKeepsFirstLatest | aws-ass-start.py:57-58 | the entry kept per name has the latest DeletionTime of that name, and is the first listed one on a tie |
| AssStart.MostRecentOnly | aws-ass-start.py:54-60 | the dedup loop computes the most-recent dict |
| AssStart.RootsOfExact | aws-ass-start.py:64-66 | an entry is kept iff it is in the dict and not nested |
| AssStart.RootsNotNested | aws-ass-start.py:64-66 | no kept root name is another kept name followed by a dash and more |
| AssStart.RootStacksOnly | aws-ass-start.py:64-66 | the root loop tests every key against all keys |
| AssStart.PickOrderFirstPositive | aws-ass-start.py:75-83 | the order is the first order-key tag whose value is positive, once the loop breaks |
| AssStart.PickOrderRaises | aws-ass-start.py:76 | an unparsable order-key value met before any positive one raises ValueError |
| AssStart.PickOrderNone | aws-ass-start.py:74-83 | no order is picked iff every order-key value reads as zero or less |
| AssStart.PickOrderPositive | aws-ass-start.py:76-79 | a picked order is always positive |
| AssStart.PickOrderLoop | aws-ass-start.py:74-83 | the tag loop with `break` computes that pick |
| AssStart.CreationScan | aws-ass-start.py:70-83 | one root stack yields at most one record |
| AssStart.StartDiscoverySound | aws-ass-start.py:35-83 | every record comes from a deduplicated, non-nested root; its description and a positive picked order match; at most one record per root |
| AssStart.CreationScanFound | aws-ass-start.py:70-83 | a record found for a root carries that root's description and a positive picked order |
| AssStart.GetStackNamesAndCreationOrder | aws-ass-start.py:35-101 | the discovery loop; the first describe or tag error propagates |
| AssStart.SavedParameters | aws-ass-start.py:165-183 | no saved object gives []; a saved document without `stack_parameters` raises |
| AssStart.AttemptsRequests | aws-ass-start.py:198-240 | the retry loop only sends this stack's create and delete requests |
| AssStart.AttemptsShape | aws-ass-start.py:198-240 | at most one create per remaining attempt (three in all), and deletes ≤ creates ≤ deletes+1; a completed loop has one more create than delete, so the stack exists |
| AssStart.AttemptsRaise | aws-ass-start.py:198-240 | an exception that leaves the loop is the WaiterError of the last attempt or one that a create or cleanup request of a remaining attempt raised |
| AssStart.Attempt | aws-ass-start.py:199-240 | one pass sends create_stack and, after a failed non-final waiter, delete_stack; it ends the loop exactly as the retry loop does at that attempt, or hands over to the next attempt |
| AssStart.AttemptsSucceedAt | aws-ass-start.py:209-214 | attempt k succeeding after k failed and cleaned-up attempts means k+1 creates, k deletes, completed |
| AssStart.AttemptsAllFail | aws-ass-start.py:215-227 | three failed waits give three creates, two deletes, and the WaiterError propagates |
| AssStart.RecreateStack | aws-ass-start.py:154-250 | an existing stack is skipped; otherwise the template is copied and the retry loop runs |
| AssStart.SavedParametersRoundTrip | aws-ass-start.py:165-206 | a stack the stop run saved is recreated with the parameters saved for it |
| AssStart.RecreateRunStarts | aws-ass-start.py:165-206 | a missing stack whose saved parameters read back is recreated by copying its template, then create_stack with those parameters |
| AssStart.RecreateRunCopies | aws-ass-start.py:185-196 | a stack's template is copied iff no stack of that name exists |
| AssStart.RecreateAllInOrder | aws-ass-start.py:362-365 | templates are copied in loop order; a completed loop handled every missing stack, a raising one a prefix of them |
| AssStart.StartCfnDescending | aws-ass-start.py:362 | stacks are handled in descending order, as a permutation of the discovered ones |
| AssStart.RecreateStacks | aws-ass-start.py:362-365 | the loop over the sorted stacks |
| AssStart.CreateDeletedTaggedCloudformationStacks | aws-ass-start.py:354-367 | nothing when ASS_SKIP_CLOUDFORMATION is set; otherwise discovery then recreation |
| AssStart.TerminatedRecordsExact | aws-ass-start.py:142-149 | exactly the saved documents of environments listed as Terminated are kept |
| AssStart.EnvKeys | aws-ass-start.py:380 | sorting succeeds iff every document is an environment record; otherwise KeyError before any rebuild |
| AssStart.RebuildRunInOrder | aws-ass-start.py:380-392 | the k-th request rebuilds the k-th environment |
| AssStart.RebuildRunCompletes | aws-ass-start.py:380-392 | a completed loop rebuilt every environment; an exception is one rebuild's |
| AssStart.StartEnvRebuildsSaved | aws-ass-start.py:370-395 | a saved environment listed as Terminated is rebuilt by a completed phase |
| AssStart.GetDeletedEnvironments | aws-ass-start.py:123-151 | the listing loop collects the saved documents of terminated environments |
| AssStart.CreateDeletedTaggedBeanstalkEnvironments | aws-ass-start.py:370-395 | nothing when ASS_SKIP_ELASTICBEANSTALK is set; otherwise rebuilds in descending order |
| AssStart.RebuildEnvironments | aws-ass-start.py:380-392 | the rebuild loop sends one rebuild per environment in the given order and stops at the first that raised |
| AssStart.RestoreRunExact | aws-ass-start.py:408-415 | only buckets tagged for backup are restored, and a completed pass restored all of them |
| AssStart.RestoreS3Backup | aws-ass-start.py:398-430 | a listing that raised propagates; otherwise the restore loop |
| AssStart.StartMainBrackets | aws-ass-start.py:433-458 | no phase exception escapes main; the template bucket is created first and, when named, removed last |
| AssStart.StartMainStopsAtTemplateBucket | aws-ass-start.py:442-447 | if the template bucket cannot be created, no later phase sends a request |
| AssStart.StartMainStopsAtRds | aws-ass-start.py:442-447 | if the RDS phase raises, through a listing, a start request or a waiter, no stack, environment or bucket phase runs; only the template bucket precedes it |
| AssStart.StartMain | aws-ass-start.py:433-458 | main's phases in order, the first exception (an RDS start request included) ending them, then the `finally` clause |
| LegacyStop.LegacyCfnRequests | aws-delete-tagged-cfn-stacks.py:285-297 | the legacy path only saves state, disables logs and empties buckets |
| LegacyStop.LegacyIsStopWithoutDeletion | aws-delete-tagged-cfn-stacks.py:293-295 | the current stop path is the legacy one followed by the deletion loop |
| LegacyStop.LegacyDeleteTaggedCloudformationStacks | aws-delete-tagged-cfn-stacks.py:285-297 | discovery with saves, then pre-deletion |
| LegacyStop.LegacyRdsRun | aws-delete-tagged-cfn-stacks.py:218-267 | the RDS path of the current stop script with the unprefixed key `ass_rds_include`: only stop requests, each for an accepted item of a listing that succeeded |
| LegacyStop.IncludeKeysDiffer | aws-delete-tagged-cfn-stacks.py:236 | no configured include key equals the legacy key or the stack-wide key |
| LegacyStop.LegacyIgnoresConfiguredIncludeTag | aws-delete-tagged-cfn-stacks.py:236 | a resource tagged only with the configured key is stopped by the current script and left running by the legacy one |
| LegacyStop.LegacyRunDestroysNothing | aws-delete-tagged-cfn-stacks.py:369-387 | a legacy run deletes, terminates and stops nothing |
| LegacyStop.LegacyMain | aws-delete-tagged-cfn-stacks.py:369-387 | legacy main: state bucket creation, whose bucket listing can raise and end the run, then the CloudFormation path |

## Left out

- Pagination (`NextToken`, `time.sleep`): each listing is one complete sequence.
- Logging and `Notification.send_notification` are left out. Logging does not change the control flow. Notifications are assumed to succeed: with NOTIFICATION_MODE unset they do nothing, but in GOOGLECHAT or JIRA mode they make an HTTP or JIRA call (ASS/Notification.py:49-54) that can raise. The model does not capture such a raise, which at aws-ass-start.py:179 would abort the fallback to empty parameters for a missing state record, and at aws-ass-start.py:451 would escape `main`'s `except` clause.
- JSON encoding of state documents: records are stored as values.
- DeletionTime is an integer rather than a datetime. Only its order matters.
- `int()` is modelled for ASCII decimal text with an optional sign and surrounding ASCII white space (space, tab to carriage return, and 0x1C to 0x1F). Underscores, non-ASCII digits and non-ASCII white space are not modelled.
- Failures of `put_object`, `get_template`, `copy` and the state-bucket read are not modelled. Failures of the listings, of each tag call on its own, of RDS requests and waiters, deletions and creations, and of the state-bucket listing, are.
  - A save that raises would end a loop.
  - In start, an unreadable state object is modelled as one that is absent.
- The undefined helpers (`get_boto3_client`, `get_template_bucket_name`, `create_bucket`, `remove_bucket`, `restore_bucket`, `cfn_stack_exists`, `check_tag_on_s3_bucket`, `get_backup_bucket_name`) are not part of this model. Their answers are inputs, and their requests carry only the bucket or stack name.
- `get_boto3_client` is called by every phase of the start script (aws-ass-start.py:40, 128, 155-156, 186, 200, 229-230, 261, 382, 399), but ASS/AWS.py does not define it. As written, each start phase raises AttributeError at its first client. AssStart.GetStackNamesAndCreationOrder, AssStart.RecreateStack, AssStart.RecreateStacks, AssStart.CreateDeletedTaggedCloudformationStacks, AssStart.GetDeletedEnvironments, AssStart.CreateDeletedTaggedBeanstalkEnvironments, AssStart.RebuildEnvironments, AssStart.RestoreS3Backup, Rds.StartRds and Rds.StartTaggedRds model the start script with a working client supplied.
- The `finally` clause's `logging.shutdown()` is left out.
- Config and AWS construction, which both scripts run before (start) or inside (stop) the try, is modelled by the constructors, not by the `main` runs.
- The stop script's Beanstalk save re-lists the environment's tags. The model reuses the discovery's tags.
- The waiter of a failed stack deletion in start is one outcome together with the deletion request.
- The legacy script's Beanstalk functions (aws-delete-tagged-cfn-stacks.py:317-348) are not modelled separately. `main` does not call them, and they repeat the stop script's code, including the missing arguments at line 318.
- The stop script's local `create_state_bucket` (aws-ass-stop.py:336-349) is not called by its `main`. It equals `AssAws.Aws.CreateStateBucket`.
- `Config.aws_authenticated` is kept only as the constructor's field. The instance attribute hides the method of the same name.
- AssStart.RecreateStack: the ClientError `AlreadyExistsException` branch only logs before re-raising, so its outcome is the same exception.
- AssStop.StopMain uses the corrected `create_state_bucket` and the corrected environment loop, and AssStop.TerminateEnvironments, AssStop.DeleteTaggedBeanstalkEnvironments, AssStop.EnvTerminateRunSavedBefore and AssStop.StopEnvSavedBeforeTerminated state the corrected environment loop. As written, the stop script raises TypeError at aws-ass-stop.py:304 on the first tagged environment, before any save or termination. The as-written versions are stated separately below. LegacyStop.LegacyMain calls the legacy script's own copy (aws-delete-tagged-cfn-stacks.py:353-366), which behaves as the corrected one. Start's `main` does not call `create_state_bucket`.
- AssStart.StartMain, AssStart.StartMainBrackets, AssStart.StartMainStopsAtTemplateBucket and AssStart.StartMainStopsAtRds model the start script with `get_template_bucket_name`, `create_bucket` and `remove_bucket` supplied as inputs. Neither ASS/Config.py nor ASS/AWS.py defines them, so the script as written raises AttributeError at aws-ass-start.py:442 before any phase runs. The `except` clause catches that one, but the `finally` clause raises AttributeError again at line 456, and that one escapes `main` on every run.

## Findings

| source | as written | input that shows it | evidently intended | confidence | as-written member | corrected member |
|---|---|---|---|---|---|---|
| ASS/AWS.py:97 | `create_state_bucket` calls `aws.get_region()`; no name `aws` exists in that module | a state bucket that does not exist yet: NameError, and the bucket is never created | `self.get_region()`, as the legacy script's local copy does | not executed | AssAws.Aws.CreateStateBucketAsWritten (CreateStateBucketDiscrepancy) | AssAws.Aws.CreateStateBucket |
| aws-ass-stop.py:304 | `config.get_state_bucket_name()` is called without its two arguments | one environment tagged `environment_deletion_order`: TypeError before its state is saved, so it is never terminated | pass region and account id, as line 287 does for stacks | not executed | AssStop.EnvTerminateRunAsWritten (EnvTerminateDiscrepancy) | AssStop.EnvTerminateRun |

/** ASS/AWS.py: the object both scripts create right after the configuration.
    Its constructor records the logger, the account id and the region and
    sets `aws_authenticated` when a lookup succeeds; its other members
    create the state bucket and empty buckets. The STS and session lookups
    and the S3 responses are parameters here. The tag predicates
    `resource_has_tag` and `s3_has_tag` live in module Tags. */
module AssAws {
  import opened Common
  import opened Effects

  /** A logger object: the module its class was defined in, and its name. */
  datatype Logger = Logger(moduleName: string, name: string)

  /** The outcome of an account-id or region lookup: a value, the
      NoCredentialsError the constructor handles, or any other exception. */
  datatype Lookup<+T> = Found(value: T) | NoCredentials | LookupRaised(error: Raised)

  class Aws {
    var logger: Option<Logger>
    /** `None` when the session has no region, or after NoCredentialsError. */
    var region: Option<string>
    var accountId: string
    var awsAuthenticated: bool

    /** The object before `__init__` has run any step. */
    constructor ()
      ensures logger.None? && region.None? && accountId == "" && !awsAuthenticated
    {
      logger := None;
      region := None;
      accountId := "";
      awsAuthenticated := false;
    }

    /** `set_logger`: only an object from the `logging` module is accepted;
        anything else raises and leaves the object as it was. */
    method SetLogger(l: Logger) returns (outcome: Outcome)
      modifies this
      ensures outcome.Completed? <==> l.moduleName == "logging"
      ensures outcome.Completed? ==> logger == Some(l)
      ensures outcome.Raise? ==> outcome.error == OtherException && logger == old(logger)
      ensures region == old(region) && accountId == old(accountId) && awsAuthenticated == old(awsAuthenticated)
    {
      if l.moduleName != "" && l.moduleName == "logging" {
        logger := Some(l);
        outcome := Completed;
      } else {
        outcome := Raise(OtherException);
      }
    }

    /** `_set_account_id`: a found id also marks the object authenticated;
        NoCredentialsError leaves the empty id; any other exception
        propagates with nothing changed. */
    method SetAccountId(lookup: Lookup<string>) returns (outcome: Outcome)
      modifies this
      ensures outcome.Raise? <==> lookup.LookupRaised?
      ensures lookup.LookupRaised? ==> outcome.error == lookup.error && accountId == old(accountId)
      ensures lookup.Found? ==> accountId == lookup.value
      ensures lookup.NoCredentials? ==> accountId == ""
      ensures awsAuthenticated == (old(awsAuthenticated) || lookup.Found?)
      ensures logger == old(logger) && region == old(region)
    {
      match lookup
      case Found(v) =>
        accountId := v;
        awsAuthenticated := true;
        outcome := Completed;
      case NoCredentials =>
        accountId := "";
        outcome := Completed;
      case LookupRaised(e) =>
        outcome := Raise(e);
    }

    /** `_set_region`: the same policy for the session's region, which may
        itself be None without any exception. */
    method SetRegion(lookup: Lookup<Option<string>>) returns (outcome: Outcome)
      modifies this
      ensures outcome.Raise? <==> lookup.LookupRaised?
      ensures lookup.LookupRaised? ==> outcome.error == lookup.error && region == old(region)
      ensures lookup.Found? ==> region == lookup.value
      ensures lookup.NoCredentials? ==> region.None?
      ensures awsAuthenticated == (old(awsAuthenticated) || lookup.Found?)
      ensures logger == old(logger) && accountId == old(accountId)
    {
      match lookup
      case Found(v) =>
        region := v;
        awsAuthenticated := true;
        outcome := Completed;
      case NoCredentials =>
        region := None;
        outcome := Completed;
      case LookupRaised(e) =>
        outcome := Raise(e);
    }

    /** `AWS(logger)`: clears the flag, then sets the logger, the account id
        and the region, in that order; the first step that raises ends the
        construction with that exception. */
    static method Create(l: Logger, accountLookup: Lookup<string>, regionLookup: Lookup<Option<string>>)
      returns (r: Result<Aws>)
      ensures r.Success? <==> l.moduleName == "logging" && !accountLookup.LookupRaised? && !regionLookup.LookupRaised?
      ensures r.Failure? && l.moduleName != "logging" ==> r.error == OtherException
      ensures r.Failure? && l.moduleName == "logging" && accountLookup.LookupRaised? ==> r.error == accountLookup.error
      ensures r.Failure? && l.moduleName == "logging" && !accountLookup.LookupRaised? ==> r.error == regionLookup.error
      ensures r.Success? ==> fresh(r.value) && r.value.logger == Some(l)
      ensures r.Success? ==> r.value.awsAuthenticated == (accountLookup.Found? || regionLookup.Found?)
      ensures r.Success? ==> r.value.accountId == (if accountLookup.Found? then accountLookup.value else "")
      ensures r.Success? ==> r.value.region == (if regionLookup.Found? then regionLookup.value else None)
    {
      var a := new Aws();
      a.awsAuthenticated := false;
      var o := a.SetLogger(l);
      if o.Raise? {
        return Failure(o.error);
      }
      o := a.SetAccountId(accountLookup);
      if o.Raise? {
        return Failure(o.error);
      }
      o := a.SetRegion(regionLookup);
      if o.Raise? {
        return Failure(o.error);
      }
      r := Success(a);
    }

    /** `create_state_bucket` as written: a bucket listing that raised
        (AccessDenied, NoCredentialsError, ...) is re-raised; the create
        branch calls `aws.get_region()`, but no name `aws` exists in
        ASS/AWS.py, so a missing bucket raises NameError and is never
        created. */
    function CreateStateBucketAsWritten(name: string, listing: Result<seq<string>>): (r: Run)
      ensures r.effects == []
      ensures r.outcome.Completed? <==> listing.Success? && name in listing.value
      ensures listing.Failure? ==> r.outcome == Raise(listing.error)
      ensures listing.Success? && name !in listing.value ==> r.outcome == Raise(NameError("aws"))
    {
      match listing
      case Failure(e) => Run([], Raise(e))
      case Success(names) => if name in names then Run([], Completed) else Run([], Raise(NameError("aws")))
    }

    /** `create_state_bucket` with the object's own region, as the legacy
        script's local copy does: a listing that raised is re-raised before
        any request; no request when the bucket is listed, otherwise one
        create request whose own outcome is the call's. */
    function CreateStateBucket(name: string, listing: Result<seq<string>>, creation: Outcome): (r: Run)
      reads this
      ensures listing.Failure? ==> r == Run([], Raise(listing.error))
      ensures listing.Success? && name in listing.value ==> r == Run([], Completed)
      ensures listing.Success? && name !in listing.value ==> r.effects == [CreateBucket(name, region)] && r.outcome == creation
    {
      match listing
      case Failure(e) => Run([], Raise(e))
      case Success(names) => if name in names then Run([], Completed) else Run([CreateBucket(name, region)], creation)
    }
  }

  /** Where the two versions differ: for a bucket that does not exist yet the
      code as written raises and creates nothing, while the corrected one
      creates it in the object's region. */
  lemma CreateStateBucketDiscrepancy(a: Aws, name: string)
    ensures a.CreateStateBucketAsWritten(name, Success([])).outcome == Raise(NameError("aws"))
    ensures a.CreateStateBucket(name, Success([]), Completed) == Run([CreateBucket(name, a.region)], Completed)
  {
  }

  /** Both versions leave an already listed bucket alone, and both re-raise a
      listing that raised. */
  lemma CreateStateBucketListedAgree(a: Aws, name: string, listing: Result<seq<string>>, creation: Outcome)
    requires listing.Failure? || name in listing.value
    ensures a.CreateStateBucketAsWritten(name, listing) == a.CreateStateBucket(name, listing, creation)
  {
  }

  // ---------------------------------------------------------------------
  // empty_bucket (ASS/AWS.py; the stop scripts' local copies agree)
  // ---------------------------------------------------------------------

  /** How an `empty_bucket` call ends. */
  datatype EmptyResult = Emptied | WarnedNoSuchBucket | IgnoredClientError(code: string) | Reraised(error: Raised)

  /** The error policy of `empty_bucket`, given how the deletion of the
      bucket's objects went: every ClientError is swallowed (with a warning
      only for NoSuchBucket), every other exception propagates. */
  function EmptyBucketPolicy(deletion: Outcome): (r: EmptyResult)
    ensures r == Emptied <==> deletion.Completed?
    ensures r == WarnedNoSuchBucket <==> deletion == Raise(ClientError("NoSuchBucket"))
    ensures r.IgnoredClientError? <==> deletion.Raise? && deletion.error.ClientError? && deletion.error.code != "NoSuchBucket"
    ensures r.Reraised? <==> deletion.Raise? && !deletion.error.ClientError?
    ensures r.Reraised? ==> r.error == deletion.error
  {
    match deletion
    case Completed => Emptied
    case Raise(e) =>
      if e.ClientError? then
        if e.code == "NoSuchBucket" then WarnedNoSuchBucket else IgnoredClientError(e.code)
      else Reraised(e)
  }
}

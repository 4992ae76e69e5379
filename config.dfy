/** ASS/Config.py: the configuration object both scripts create first. It
    holds the tag prefix read from the ASS_TAG_PREFIX environment variable
    (given here as a parameter), names the state bucket and prefixes tag
    keys. The logger it also sets up is not part of this model. */
module AssConfig {
  import opened Common

  /** The fixed tail of every state bucket name. */
  const StateBucketSuffix: string := "-stop-start-state-bucket"

  class Config {
    /** The logger name passed to the constructor. */
    var projectName: string
    var assTagPrefix: string
    /** Assigned False by the constructor. The instance attribute hides the
        method of the same name, so `cfg.aws_authenticated()` on an instance
        calls a bool. */
    var awsAuthenticated: bool

    /** `Config(project_name)`: the tag prefix first, then the flag. */
    constructor (projectName: string, tagPrefixVar: Option<string>)
      ensures this.projectName == projectName
      ensures tagPrefixVar.None? ==> assTagPrefix == ""
      ensures tagPrefixVar.Some? ==> assTagPrefix == tagPrefixVar.value + ":"
      ensures !awsAuthenticated
    {
      this.projectName := projectName;
      assTagPrefix := "";
      awsAuthenticated := false;
      new;
      SetAssTagPrefix(tagPrefixVar);
      awsAuthenticated := false;
    }

    /** `_set_ass_tag_prefix`: the variable's value followed by a colon when
        it is set, the empty string when it is not. */
    method SetAssTagPrefix(tagPrefixVar: Option<string>)
      modifies this
      ensures tagPrefixVar.None? ==> assTagPrefix == ""
      ensures tagPrefixVar.Some? ==> assTagPrefix == tagPrefixVar.value + ":"
      ensures projectName == old(projectName) && awsAuthenticated == old(awsAuthenticated)
    {
      match tagPrefixVar
      case Some(v) => assTagPrefix := v + ":";
      case None => assTagPrefix := "";
    }

    /** `full_ass_tag(tag)`: the tag key with the configured prefix in front. */
    function FullAssTag(tag: string): (r: string)
      reads this
      ensures |r| == |assTagPrefix| + |tag|
      ensures StartsWith(r, assTagPrefix) && EndsWith(r, tag)
    {
      assTagPrefix + tag
    }

    /** `get_state_bucket_name(region, account_id)`, where both arguments
        have already been formatted as text. */
    static function StateBucketName(region: string, accountId: string): (name: string)
      ensures StartsWith(name, region + "-") && EndsWith(name, StateBucketSuffix)
      ensures |name| == |region| + 1 + |accountId| + |StateBucketSuffix|
      ensures name[|region| + 1..|region| + 1 + |accountId|] == accountId
    {
      region + "-" + accountId + StateBucketSuffix
    }
  }

  /** For one configuration, distinct tags get distinct full keys. */
  lemma FullAssTagInjective(cfg: Config, t1: string, t2: string)
    requires cfg.FullAssTag(t1) == cfg.FullAssTag(t2)
    ensures t1 == t2
  {
    var n := |cfg.assTagPrefix|;
    assert t1 == cfg.FullAssTag(t1)[n..];
    assert t2 == cfg.FullAssTag(t2)[n..];
  }

  /** Without ASS_TAG_PREFIX the full key is the tag itself. */
  lemma FullAssTagWithoutPrefix(cfg: Config, t: string)
    requires cfg.assTagPrefix == ""
    ensures cfg.FullAssTag(t) == t
  {
  }

  /** With ASS_TAG_PREFIX=p, the full key of `t` is `p:t`. */
  lemma FullAssTagWithPrefix(cfg: Config, p: string, t: string)
    requires cfg.assTagPrefix == p + ":"
    ensures cfg.FullAssTag(t)[..|p|] == p && cfg.FullAssTag(t)[|p|] == ':' && cfg.FullAssTag(t)[|p| + 1..] == t
  {
    assert cfg.FullAssTag(t) == p + ":" + t;
  }

  /** Account ids contain no dash, so the state bucket name determines the
      region and the account it was built from, even though region names do
      contain dashes. */
  lemma StateBucketNameInjective(r1: string, a1: string, r2: string, a2: string)
    requires '-' !in a1 && '-' !in a2
    requires Config.StateBucketName(r1, a1) == Config.StateBucketName(r2, a2)
    ensures r1 == r2 && a1 == a2
  {
    var x1, x2 := r1 + "-" + a1, r2 + "-" + a2;
    assert Config.StateBucketName(r1, a1) == x1 + StateBucketSuffix;
    assert Config.StateBucketName(r2, a2) == x2 + StateBucketSuffix;
    assert x1 == (x1 + StateBucketSuffix)[..|x1|];
    assert x2 == (x2 + StateBucketSuffix)[..|x2|];
    assert x1 == x2;
    assert x1[|r1|] == '-' && x2[|r2|] == '-';
    assert forall k :: |r1| < k < |x1| ==> x1[k] == a1[k - |r1| - 1];
    assert forall k :: |r2| < k < |x2| ==> x2[k] == a2[k - |r2| - 1];
    assert |r1| == |r2|;
    assert r1 == x1[..|r1|] && r2 == x2[..|r2|];
    assert a1 == x1[|r1| + 1..] && a2 == x2[|r2| + 1..];
  }
}

/** Tag handling shared by the start and stop scripts: the fail-closed tag
    predicates of ASS/AWS.py, Python's int() applied to tag values, and the
    scan of a tag list for an ordering tag (`stack_deletion_order`,
    `environment_deletion_order`). */
module Tags {
  import opened Common

  /** One entry of a TagList / TagSet / ResourceTags response. */
  datatype Tag = Tag(key: string, value: string)

  /** The outcome of a list_tags_for_resource call: None when it raised. */
  type TagFetch = Option<seq<Tag>>

  // ---------------------------------------------------------------------
  // resource_has_tag (ASS/AWS.py; identical local copies in both scripts)
  // ---------------------------------------------------------------------

  /** The search loop over a TagList: stops at the first exact match. */
  function TagListHas(tags: seq<Tag>, key: string, value: string): (r: bool)
    ensures r <==> Tag(key, value) in tags
  {
    if tags == [] then false
    else if tags[0].key == key && tags[0].value == value then true
    else
      assert tags == [tags[0]] + tags[1..];
      TagListHas(tags[1..], key, value)
  }

  /** resource_has_tag: true exactly when the fetch succeeded and returned an
      entry with this key and this value; a fetch that raised yields false. */
  function ResourceHasTag(fetch: TagFetch, key: string, value: string): (r: bool)
    ensures r <==> fetch.Some? && Tag(key, value) in fetch.value
    ensures fetch.None? ==> !r
  {
    match fetch
    case None => false
    case Some(tags) => TagListHas(tags, key, value)
  }

  // ---------------------------------------------------------------------
  // s3_has_tag (ASS/AWS.py)
  // ---------------------------------------------------------------------

  /** The outcome of get_bucket_tagging. */
  datatype S3TagFetch = TagSet(tags: seq<Tag>) | S3ClientError(code: string) | S3OtherError

  /** The three Python values s3_has_tag can return. */
  datatype PyAnswer = PyTrue | PyFalse | PyNone

  /** Python truthiness of an answer: only True is truthy. */
  predicate Truthy(a: PyAnswer) {
    a == PyTrue
  }

  /** s3_has_tag: True on the first match, False on a ClientError, None when
      the TagSet has no match, and any other exception propagates. */
  function S3HasTag(fetch: S3TagFetch, key: string, value: string): (r: Result<PyAnswer>)
    ensures r.Failure? <==> fetch.S3OtherError?
    ensures r == Success(PyTrue) <==> fetch.TagSet? && Tag(key, value) in fetch.tags
    ensures r == Success(PyFalse) <==> fetch.S3ClientError?
    ensures r == Success(PyNone) <==> fetch.TagSet? && Tag(key, value) !in fetch.tags
    ensures r.Success? && Truthy(r.value) <==> fetch.TagSet? && Tag(key, value) in fetch.tags
  {
    match fetch
    case TagSet(tags) => if TagListHas(tags, key, value) then Success(PyTrue) else Success(PyNone)
    case S3ClientError(_) => Success(PyFalse)
    case S3OtherError => Failure(OtherException)
  }

  // ---------------------------------------------------------------------
  // int(tag['Value'])
  // ---------------------------------------------------------------------

  predicate IsDigit(c: char) {
    '0' <= c <= '9'
  }

  /** The ASCII characters str.strip() and int() treat as white space: the
      space, tab to carriage return, and the separators 0x1C to 0x1F. */
  predicate IsSpace(c: char) {
    c == ' ' || '\t' <= c <= '\r' || 0x1C <= c as int <= 0x1F
  }

  /** Every character of `s` is a decimal digit (checked from the last). */
  predicate AllDigits(s: string) {
    s == [] || (AllDigits(s[..|s| - 1]) && IsDigit(s[|s| - 1]))
  }

  /** The value of a string of decimal digits, most significant first. */
  function DigitsValue(s: string): nat
    requires AllDigits(s)
  {
    if s == [] then 0 else 10 * DigitsValue(s[..|s| - 1]) + (s[|s| - 1] as int - '0' as int)
  }

  /** Python's int(s) on a tag value: surrounding white space is dropped,
      then an optional sign and one or more decimal digits must follow;
      anything else raises, shown here as None. */
  function ParseInt(s: string): Option<int>
    decreases |s|
  {
    if |s| > 0 && IsSpace(s[0]) then ParseInt(s[1..])
    else if |s| > 0 && IsSpace(s[|s| - 1]) then ParseInt(s[..|s| - 1])
    else ParseSigned(s)
  }

  /** int() on a string without surrounding white space. */
  function ParseSigned(t: string): Option<int> {
    if |t| == 0 then None
    else if t[0] == '-' || t[0] == '+' then
      var digits := t[1..];
      if |digits| > 0 && AllDigits(digits) then
        var magnitude: int := DigitsValue(digits);
        Some(if t[0] == '-' then -magnitude else magnitude)
      else None
    else if AllDigits(t) then Some(DigitsValue(t))
    else None
  }

  /** Python's str(n) for a natural number. */
  function NatToDecimal(n: nat): (s: string)
    ensures |s| > 0 && AllDigits(s) && DigitsValue(s) == n
  {
    if n < 10 then
      var s := [('0' as int + n) as char];
      assert s[..0] == [] && AllDigits([]);
      assert IsDigit(s[0]) && DigitsValue(s[..0]) == 0;
      assert AllDigits(s);
      s
    else
      var prefix := NatToDecimal(n / 10);
      var last := ('0' as int + n % 10) as char;
      var s := prefix + [last];
      assert s[..|s| - 1] == prefix && s[|s| - 1] == last;
      assert IsDigit(last) && last as int - '0' as int == n % 10;
      assert AllDigits(s);
      assert DigitsValue(s) == 10 * DigitsValue(prefix) + n % 10;
      s
  }

  lemma {:induction false} AllDigitsAt(s: string, i: nat)
    requires AllDigits(s) && i < |s|
    ensures IsDigit(s[i])
  {
    if i < |s| - 1 {
      AllDigitsAt(s[..|s| - 1], i);
    }
  }

  /** Python's str(n) for an integer. */
  function IntToDecimal(n: int): string {
    if n < 0 then "-" + NatToDecimal(-n) else NatToDecimal(n)
  }

  /** int(str(n)) == n: every value written as a decimal tag parses back. */
  lemma ParseIntRoundTrip(n: int)
    ensures ParseInt(IntToDecimal(n)) == Some(n)
  {
    var s := IntToDecimal(n);
    var d := NatToDecimal(if n < 0 then -n else n);
    AllDigitsAt(d, 0);
    AllDigitsAt(d, |d| - 1);
    assert !IsSpace(s[0]) && !IsSpace(s[|s| - 1]);
    assert ParseInt(s) == ParseSigned(s);
    if n < 0 {
      assert s[1..] == d;
    } else {
      assert s == d;
      assert s[0] != '-' && s[0] != '+';
    }
  }

  /** A value without a single decimal digit (such as "yes", "" or only
      white space) makes int() raise. */
  lemma {:induction false} ParseIntRejectsWords(s: string)
    requires forall i :: 0 <= i < |s| ==> !IsDigit(s[i])
    ensures ParseInt(s) == None
    decreases |s|
  {
    if |s| > 0 && IsSpace(s[0]) {
      ParseIntRejectsWords(s[1..]);
    } else if |s| > 0 && IsSpace(s[|s| - 1]) {
      ParseIntRejectsWords(s[..|s| - 1]);
    } else {
      assert ParseInt(s) == ParseSigned(s);
      if |s| > 1 {
        assert s[1..][|s| - 2] == s[|s| - 1];
      }
    }
  }

  // ---------------------------------------------------------------------
  // The ordering-tag scan: `tag['Key'] == K and int(tag['Value']) > 0`
  // ---------------------------------------------------------------------

  /** What a scan of a tag list yields: the values found, in order, and the
      exception that stopped the scan, if one did. */
  datatype Scan<+T> = Scan(found: seq<T>, error: Option<Raised>)

  /** The stop script's loop over a stack's (or environment's) tags: every
      tag keyed `key` whose value parses to a positive int contributes that
      value (there is no break); the first tag keyed `key` whose value does
      not parse raises ValueError and ends the scan. Other tags are skipped
      without evaluating int(): Python's `and` short-circuits. The parser is
      a parameter, always ParseInt (int()) at the call sites, so that proofs
      about the loop do not depend on how int() reads digits. */
  function ScanOrders(tags: seq<Tag>, key: string, parse: string -> Option<int>): (s: Scan<int>)
  {
    if tags == [] then Scan([], None)
    else
      var s := ScanOrders(tags[..|tags| - 1], key, parse);
      var t := tags[|tags| - 1];
      if s.error.Some? || t.key != key then s
      else match parse(t.value)
        case None => Scan(s.found, Some(ValueError(t.value)))
        case Some(v) => if v > 0 then Scan(s.found + [v], None) else s
  }

  /** Every value found is a positive parse of a tag keyed `key`. */
  lemma {:induction false} ScanOrdersFoundSound(tags: seq<Tag>, key: string, parse: string -> Option<int>)
    ensures forall v :: v in ScanOrders(tags, key, parse).found ==>
      v > 0 && exists i :: 0 <= i < |tags| && tags[i].key == key && parse(tags[i].value) == Some(v)
  {
    if tags != [] {
      var init := tags[..|tags| - 1];
      ScanOrdersFoundSound(init, key, parse);
      forall v | v in ScanOrders(tags, key, parse).found
        ensures v > 0 && exists i :: 0 <= i < |tags| && tags[i].key == key && parse(tags[i].value) == Some(v)
      {
        if v in ScanOrders(init, key, parse).found {
          var i :| 0 <= i < |init| && init[i].key == key && parse(init[i].value) == Some(v);
          assert tags[i] == init[i];
        } else {
          assert tags[|tags| - 1].key == key && parse(tags[|tags| - 1].value) == Some(v);
        }
      }
    }
  }

  /** A scan that ends without error parsed every tag keyed `key` and found
      every positive value among them. */
  lemma {:induction false} ScanOrdersComplete(tags: seq<Tag>, key: string, parse: string -> Option<int>)
    requires ScanOrders(tags, key, parse).error.None?
    ensures forall i :: 0 <= i < |tags| && tags[i].key == key ==>
      parse(tags[i].value).Some? &&
      (parse(tags[i].value).value > 0 ==> parse(tags[i].value).value in ScanOrders(tags, key, parse).found)
  {
    if tags != [] {
      var init := tags[..|tags| - 1];
      var last := tags[|tags| - 1];
      var s0 := ScanOrders(init, key, parse);
      assert s0.error.None?;
      ScanOrdersComplete(init, key, parse);
      assert s0.found <= ScanOrders(tags, key, parse).found;
      forall i | 0 <= i < |tags| && tags[i].key == key
        ensures parse(tags[i].value).Some?
        ensures parse(tags[i].value).value > 0 ==> parse(tags[i].value).value in ScanOrders(tags, key, parse).found
      {
        if i < |tags| - 1 {
          assert tags[i] == init[i];
        }
      }
    }
  }

  /** A scan that raised met a tag keyed `key` whose value does not parse. */
  lemma {:induction false} ScanOrdersErrorWitness(tags: seq<Tag>, key: string, parse: string -> Option<int>)
    requires ScanOrders(tags, key, parse).error.Some?
    ensures exists i :: 0 <= i < |tags| && tags[i].key == key && parse(tags[i].value).None?
  {
    var init := tags[..|tags| - 1];
    if ScanOrders(init, key, parse).error.Some? {
      ScanOrdersErrorWitness(init, key, parse);
      var i :| 0 <= i < |init| && init[i].key == key && parse(init[i].value).None?;
      assert tags[i] == init[i];
    } else {
      assert tags[|tags| - 1].key == key && parse(tags[|tags| - 1].value).None?;
    }
  }

  /** One more tag after an error-free prefix: the loop body of the scan. */
  lemma ScanOrdersStep(tags: seq<Tag>, key: string, parse: string -> Option<int>, j: nat)
    requires j < |tags| && ScanOrders(tags[..j], key, parse).error.None?
    ensures var s := ScanOrders(tags[..j], key, parse);
      ScanOrders(tags[..j + 1], key, parse) ==
        if tags[j].key != key then s
        else if parse(tags[j].value).None? then Scan(s.found, Some(ValueError(tags[j].value)))
        else if parse(tags[j].value).value > 0 then Scan(s.found + [parse(tags[j].value).value], None)
        else s
  {
    assert tags[..j + 1][..j] == tags[..j];
  }

  /** Scanning more tags only extends what an error-free scan found, and an
      error in a prefix is the error of the whole scan. */
  lemma {:induction false} ScanOrdersPrefix(tags: seq<Tag>, key: string, parse: string -> Option<int>, j: nat)
    requires j <= |tags|
    ensures ScanOrders(tags[..j], key, parse).found <= ScanOrders(tags, key, parse).found
    ensures ScanOrders(tags[..j], key, parse).error.Some? ==> ScanOrders(tags, key, parse) == ScanOrders(tags[..j], key, parse)
  {
    if j < |tags| {
      ScanOrdersPrefix(tags[..|tags| - 1], key, parse, j);
      assert tags[..|tags| - 1][..j] == tags[..j];
    } else {
      assert tags[..j] == tags;
    }
  }
}

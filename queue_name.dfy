/** `QueueName`: building "<prefix>.<type>[.<retry level>]" queue names. */
module QueueName {
  import opened Wrappers
  import opened RecordTypes

  const Transform: string := "rmap.osf.transform"
  const Ingest: string := "rmap.osf.ingest"
  const Retry1: string := "retry1"
  const Retry2: string := "retry2"
  const Retry3: string := "retry3"
  const Fail: string := "fail"

  /** `StringJoiner(".")` over the added parts. */
  function JoinDot(parts: seq<string>): string
  {
    if parts == [] then ""
    else if |parts| == 1 then parts[0]
    else parts[0] + "." + JoinDot(parts[1..])
  }

  lemma JoinDotSmall(parts: seq<string>)
    ensures |parts| == 1 ==> JoinDot(parts) == parts[0]
    ensures |parts| == 2 ==> JoinDot(parts) == parts[0] + "." + parts[1]
    ensures |parts| == 3 ==> JoinDot(parts) == parts[0] + "." + parts[1] + "." + parts[2]
  {
    if |parts| == 3 {
      assert JoinDot(parts[1..]) == parts[1] + "." + parts[2];
    }
  }

  /**
   * `getQueueName(queueName, harvestType, retryLevel)` on `sType = harvestType.getTypeString()`.
   * A null prefix throws; the type is added when non-null and non-empty; the retry level
   * when it is non-null and `sType` is non-empty (which throws when `sType` is null).
   */
  function GetQueueName(queueName: Option<string>, sType: Option<string>, retryLevel: Option<string>)
    : (r: Result<string>)
    ensures r.Err? <==> queueName.None? || (retryLevel.Some? && sType.None?)
    ensures r.Ok? ==> |queueName.value| <= |r.value| && r.value[..|queueName.value|] == queueName.value
    ensures r.Ok? ==> (r.value ==
      queueName.value
      + (if sType.Some? && |sType.value| > 0 then "." + sType.value else "")
      + (if retryLevel.Some? && |sType.value| > 0 then "." + retryLevel.value else ""))
  {
    if queueName.None? then Err("Queue name prefix required in order to generate a complete queue name")
    else
      var withType := if sType.Some? && |sType.value| > 0 then [queueName.value, sType.value] else [queueName.value];
      if retryLevel.Some? && sType.None? then Err("NullPointerException")
      else
        var parts := if retryLevel.Some? && |sType.value| > 0 then withType + [retryLevel.value] else withType;
        JoinDotSmall(parts);
        Ok(JoinDot(parts))
  }

  /** The tiers of the retry chain: the primary queue carries no retry level. */
  datatype Tier = Primary | R1 | R2 | R3 | Failed

  function RetryLevel(t: Tier): Option<string>
  {
    match t
    case Primary => None
    case R1 => Some(Retry1)
    case R2 => Some(Retry2)
    case R3 => Some(Retry3)
    case Failed => Some(Fail)
  }

  /** The queue of a stage (`Transform` or `Ingest`), record kind and tier, as the driver names it. */
  function Name(prefix: string, t: RecordType, tier: Tier): (r: string)
    ensures GetQueueName(Some(prefix), Some(TypeString(t)), RetryLevel(tier)) == Ok(r)
  {
    GetQueueName(Some(prefix), Some(TypeString(t)), RetryLevel(tier)).value
  }

  /** What a tier adds after "<prefix>.<type>". */
  function TierSuffix(tier: Tier): string
  {
    if tier == Primary then "" else "." + RetryLevel(tier).value
  }

  lemma TierSuffixDistinct(a: Tier, b: Tier)
    requires a != b
    ensures TierSuffix(a) != TierSuffix(b)
  {
    var sa, sb := TierSuffix(a), TierSuffix(b);
    if a != Primary && b != Primary {
      assert sa[1..] == RetryLevel(a).value && sb[1..] == RetryLevel(b).value;
      if |sa| == |sb| {
        assert sa[1] != sb[1] || sa[6] != sb[6];
      }
    }
  }

  lemma NameShape(prefix: string, t: RecordType, tier: Tier)
    requires |TypeString(t)| > 0
    ensures Name(prefix, t, tier) == prefix + "." + TypeString(t) + TierSuffix(tier)
  {
    var ts, sfx := TypeString(t), TierSuffix(tier);
    assert sfx == (if RetryLevel(tier).Some? then "." + RetryLevel(tier).value else "");
    assert Name(prefix, t, tier) == prefix + ("." + ts) + sfx;
    assert prefix + ("." + ts) == prefix + "." + ts;
  }

  lemma SamePrefixCancels(x: string, s1: string, s2: string)
    requires x + s1 == x + s2
    ensures s1 == s2
  {
    assert s1 == (x + s1)[|x|..];
    assert s2 == (x + s2)[|x|..];
  }

  /** With a non-empty type string, the five tiers of one stage have pairwise distinct names. */
  lemma TierNamesDistinct(prefix: string, t: RecordType, a: Tier, b: Tier)
    requires |TypeString(t)| > 0 && a != b
    ensures Name(prefix, t, a) != Name(prefix, t, b)
  {
    var base := prefix + "." + TypeString(t);
    NameShape(prefix, t, a);
    NameShape(prefix, t, b);
    TierSuffixDistinct(a, b);
    if Name(prefix, t, a) == Name(prefix, t, b) {
      SamePrefixCancels(base, TierSuffix(a), TierSuffix(b));
    }
  }

  /** No transform queue is an ingest queue: the prefixes differ at their tenth character. */
  lemma StagesDistinct(t: RecordType, a: Tier, b: Tier)
    ensures Name(Transform, t, a) != Name(Ingest, t, b)
  {
    assert Name(Transform, t, a)[9] == 't' && Name(Ingest, t, b)[9] == 'i';
  }
}

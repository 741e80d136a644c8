/**
 * The queue message (`HarvestRecord` with its `RecordInfo` and `HarvestInfo`) and its
 * construction from a light record (`OsfHarvestableRecord`).
 */
module HarvestRecords {
  import opened Wrappers
  import opened RecordTypes
  import opened LoaderUtils
  import opened Utf8
  import opened LightRecord

  datatype HarvestInfo = HarvestInfo(id: string, src: string, date: Instant)

  datatype RecordInfo = RecordInfo(id: string, src: string, contentType: string, date: Instant, harvestInfo: HarvestInfo)

  /** A message on a queue: its metadata and its body. */
  datatype HarvestRecord = HarvestRecord(recordInfo: RecordInfo, body: seq<byte>)

  const OsfPathPrefix: string := "https://osf.io/"
  const OsfApiPrefix: string := "https://api.osf.io/v2/"

  function RecordUri(id: string): string { OsfPathPrefix + id + "/" }

  function SourceUri(t: RecordType, id: string): string { OsfApiPrefix + TypeString(t) + "/" + id + "/" }

  // ---- what `URI.create` accepts ---------------------------------------------
  //
  // Both URIs built here are "https://", a host name of letters and dots, and a tail
  // that starts with '/'. `java.net.URI`'s parser reads the scheme and the host as the
  // authority, then the tail: a path up to the first '?' or '#', a query after a '?' up
  // to the first '#', and a fragment after a '#'. Each part is a run of the characters
  // it allows, "%" escapes of two hex digits, and visible characters beyond US-ASCII.

  predicate IsAlphaNum(c: char)
  {
    'a' <= c <= 'z' || 'A' <= c <= 'Z' || '0' <= c <= '9'
  }

  predicate IsUnreserved(c: char)
  {
    IsAlphaNum(c) || c == '-' || c == '_' || c == '.' || c == '!' || c == '~' || c == '*' || c == '\'' || c == '(' || c == ')'
  }

  /** Characters a path takes as they are. */
  predicate IsPathChar(c: char)
  {
    IsUnreserved(c) || c == ':' || c == '@' || c == '&' || c == '=' || c == '+' || c == '$' || c == ',' || c == ';' || c == '/'
  }

  /** Characters a query or a fragment takes as they are. */
  predicate IsUricChar(c: char)
  {
    IsUnreserved(c) || c == ';' || c == '/' || c == '?' || c == ':' || c == '@' || c == '&' || c == '=' || c == '+' || c == '$' || c == ','
    || c == '[' || c == ']'
  }

  predicate IsHexDigit(c: char)
  {
    '0' <= c <= '9' || 'a' <= c <= 'f' || 'A' <= c <= 'F'
  }

  /** `Character.isISOControl`. */
  predicate IsIsoControl(c: char)
  {
    c as int <= 0x1F || 0x7F <= c as int <= 0x9F
  }

  /** `Character.isSpaceChar`: Unicode's space, line and paragraph separators. */
  predicate IsSpaceChar(c: char)
  {
    var n := c as int;
    n == 0x20 || n == 0xA0 || n == 0x1680 || n == 0x180E || 0x2000 <= n <= 0x200A
    || n == 0x2028 || n == 0x2029 || n == 0x202F || n == 0x205F || n == 0x3000
  }

  /** A character beyond US-ASCII that the parser lets through unescaped. */
  predicate IsVisibleOther(c: char)
  {
    c as int > 128 && !IsSpaceChar(c) && !IsIsoControl(c)
  }

  /** Characters a path or (`uric`) a query or a fragment takes unescaped. */
  predicate Allowed(c: char, uric: bool)
  {
    (if uric then IsUricChar(c) else IsPathChar(c)) || IsVisibleOther(c)
  }

  /** Whether all of `s` is one URI component: a path, or (`uric`) a query or a fragment. */
  predicate ComponentParses(s: string, uric: bool)
    decreases |s|
  {
    if s == [] then true
    else if Allowed(s[0], uric) then ComponentParses(s[1..], uric)
    else s[0] == '%' && |s| >= 3 && IsHexDigit(s[1]) && IsHexDigit(s[2]) && ComponentParses(s[3..], uric)
  }

  /** A run of allowed characters is a component. */
  lemma {:induction false} AllowedParses(s: string, uric: bool)
    requires forall k :: 0 <= k < |s| ==> Allowed(s[k], uric)
    ensures ComponentParses(s, uric)
  {
    if s != [] {
      AllowedParses(s[1..], uric);
    }
  }

  /**
   * In a component every character is allowed or a '%', and every '%' is followed by
   * two hex digits.
   */
  lemma {:induction false} ParsedComponent(s: string, uric: bool)
    requires ComponentParses(s, uric)
    ensures forall k :: 0 <= k < |s| ==> Allowed(s[k], uric) || s[k] == '%'
    ensures forall k :: 0 <= k < |s| && s[k] == '%' ==> k + 2 < |s| && IsHexDigit(s[k + 1]) && IsHexDigit(s[k + 2])
  {
    if s != [] {
      var n := if Allowed(s[0], uric) then 1 else 3;
      ParsedComponent(s[n..], uric);
      forall k | n <= k < |s| ensures s[k] == s[n..][k - n] {}
      if n == 3 {
        assert Allowed(s[1], uric) && Allowed(s[2], uric);
      }
    }
  }

  /** Where a path ends: the first '?' or '#' of `s`, or `|s|`. */
  function PathEnd(s: string): (i: nat)
    ensures i <= |s|
    ensures i < |s| ==> s[i] == '?' || s[i] == '#'
    ensures forall k :: 0 <= k < i ==> s[k] != '?' && s[k] != '#'
  {
    if s == [] || s[0] == '?' || s[0] == '#' then 0 else 1 + PathEnd(s[1..])
  }

  /** Where a query ends: the first '#' of `s`, or `|s|`. */
  function QueryEnd(s: string): (i: nat)
    ensures i <= |s|
    ensures i < |s| ==> s[i] == '#'
    ensures forall k :: 0 <= k < i ==> s[k] != '#'
  {
    if s == [] || s[0] == '#' then 0 else 1 + QueryEnd(s[1..])
  }

  /** Whether a query, with any fragment after it, parses. */
  predicate QueryParses(s: string)
  {
    var j := QueryEnd(s);
    ComponentParses(s[..j], true) && (j == |s| || ComponentParses(s[j + 1..], true))
  }

  /** Whether `URI.create` accepts a tail after "https://" and a host name. */
  predicate TailParses(s: string)
  {
    var i := PathEnd(s);
    ComponentParses(s[..i], false)
    && (i == |s| || (if s[i] == '?' then QueryParses(s[i + 1..]) else ComponentParses(s[i + 1..], true)))
  }

  function RecordTail(id: string): string { "/" + id + "/" }

  function SourceTail(t: RecordType, id: string): string { "/v2/" + TypeString(t) + "/" + id + "/" }

  lemma UrisOfTails(t: RecordType, id: string)
    ensures RecordUri(id) == "https://osf.io" + RecordTail(id)
    ensures SourceUri(t, id) == "https://api.osf.io" + SourceTail(t, id)
  {
  }

  /** A prefix of plain path characters changes nothing about a tail. */
  lemma PathPrefixParses(p: string, s: string)
    requires forall k :: 0 <= k < |p| ==> IsPathChar(p[k])
    ensures TailParses(p + s) <==> TailParses(s)
  {
    var i := PathEnd(s);
    PathPrefixIndex(p, s);
    assert (p + s)[..|p| + i] == p + s[..i];
    assert (p + s)[|p| + i..] == s[i..];
    if i < |s| {
      assert (p + s)[|p| + i + 1..] == s[i + 1..];
    }
    PathPrefixComponent(p, s[..i]);
  }

  lemma {:induction false} PathPrefixIndex(p: string, s: string)
    requires forall k :: 0 <= k < |p| ==> IsPathChar(p[k])
    ensures PathEnd(p + s) == |p| + PathEnd(s)
  {
    if p == [] {
      assert p + s == s;
    } else {
      assert (p + s)[0] == p[0] && IsPathChar(p[0]);
      assert (p + s)[1..] == p[1..] + s;
      PathPrefixIndex(p[1..], s);
    }
  }

  lemma {:induction false} PathPrefixComponent(p: string, s: string)
    requires forall k :: 0 <= k < |p| ==> IsPathChar(p[k])
    ensures ComponentParses(p + s, false) <==> ComponentParses(s, false)
  {
    if p == [] {
      assert p + s == s;
    } else {
      assert (p + s)[0] == p[0] && IsPathChar(p[0]);
      assert (p + s)[1..] == p[1..] + s;
      PathPrefixComponent(p[1..], s);
    }
  }

  /**
   * With a type string of plain path characters (every listed kind's is), the source URI
   * parses exactly when the record URI does: the id alone decides.
   */
  lemma SourceParsesAsRecord(t: RecordType, id: string)
    requires forall k :: 0 <= k < |TypeString(t)| ==> IsPathChar(TypeString(t)[k])
    ensures TailParses(SourceTail(t, id)) <==> TailParses(RecordTail(id))
  {
    var p := "/v2/" + TypeString(t);
    assert SourceTail(t, id) == p + RecordTail(id);
    assert forall k :: 0 <= k < |p| ==> IsPathChar(p[k]) by {
      forall k | 0 <= k < |p| ensures IsPathChar(p[k]) {
        if k >= 4 { assert p[k] == TypeString(t)[k - 4]; }
      }
    }
    PathPrefixParses(p, RecordTail(id));
  }

  /** Ids of letters, digits and marks, which OSF's ids are, always parse. */
  lemma {:induction false} UnreservedIdParses(id: string)
    requires forall k :: 0 <= k < |id| ==> IsUnreserved(id[k])
    ensures TailParses(RecordTail(id))
  {
    var s := RecordTail(id);
    PathPrefixParses("/" + id + "/", "");
    assert s + "" == s;
  }

  /** Ids that the parser accepts: plain, with an escape, with brackets in a query, accented. */
  lemma KnownTailsParse()
    ensures TailParses(RecordTail("abc12"))
    ensures TailParses(RecordTail("a%20b"))
    ensures TailParses(RecordTail("a?x=[1]"))
    ensures TailParses(RecordTail("\U{00E9}t\U{00E9}"))
  {
    UnreservedIdParses("abc12");
    EscapeParses("a%20b");
    BracketsInQueryParse("a?x=[1]");
    AccentsParse("\U{00E9}t\U{00E9}");
  }

  lemma EscapeParses(id: string)
    requires id == "a%20b"
    ensures TailParses(RecordTail(id))
  {
    var s := RecordTail(id);
    PathEndAt(s, |s|);
    var p, e := s[..2], s[2..];
    assert s[..|s|] == s == p + e;
    assert ComponentParses(e, false) by {
      AllowedParses(e[3..], false);
    }
    AllowedPrefixParses(p, e, false);
  }

  lemma BracketsInQueryParse(id: string)
    requires id == "a?x=[1]"
    ensures TailParses(RecordTail(id))
  {
    var s := RecordTail(id);
    PathEndAt(s, 2);
    AllowedParses(s[..2], false);
    var q := s[3..];
    QueryEndAt(q, |q|);
    assert q[..|q|] == q;
    AllowedParses(q, true);
  }

  lemma AccentsParse(id: string)
    requires id == "\U{00E9}t\U{00E9}"
    ensures TailParses(RecordTail(id))
  {
    var s := RecordTail(id);
    PathEndAt(s, |s|);
    assert s[..|s|] == s;
    AllowedParses(s, false);
  }

  lemma PathEndAt(s: string, i: nat)
    requires i <= |s| && (i < |s| ==> s[i] == '?' || s[i] == '#')
    requires forall k :: 0 <= k < i ==> s[k] != '?' && s[k] != '#'
    ensures PathEnd(s) == i
  {
  }

  lemma QueryEndAt(s: string, i: nat)
    requires i <= |s| && (i < |s| ==> s[i] == '#')
    requires forall k :: 0 <= k < i ==> s[k] != '#'
    ensures QueryEnd(s) == i
  {
  }

  lemma {:induction false} AllowedPrefixParses(p: string, s: string, uric: bool)
    requires forall k :: 0 <= k < |p| ==> Allowed(p[k], uric)
    requires ComponentParses(s, uric)
    ensures ComponentParses(p + s, uric)
  {
    if p == [] {
      assert p + s == s;
    } else {
      assert (p + s)[0] == p[0];
      assert (p + s)[1..] == p[1..] + s;
      AllowedPrefixParses(p[1..], s, uric);
    }
  }

  /**
   * Ids that the parser refuses: a space, a bracket in the path, a malformed escape, a
   * second '#', a no-break space.
   */
  lemma KnownTailsRefused()
    ensures !TailParses(RecordTail("a b"))
    ensures !TailParses(RecordTail("a[b"))
    ensures !TailParses(RecordTail("a%zz"))
    ensures !TailParses(RecordTail("a#b#c"))
    ensures !TailParses(RecordTail("a\U{00A0}b"))
  {
    RefusedInPath("a b");
    RefusedInPath("a[b");
    RefusedInPath("a\U{00A0}b");
    MalformedEscapeRefused("a%zz");
    SecondHashRefused("a#b#c");
  }

  lemma RefusedInPath(id: string)
    requires id == "a b" || id == "a[b" || id == "a\U{00A0}b"
    ensures !TailParses(RecordTail(id))
  {
    PathRefuses(RecordTail(id), 2);
  }

  lemma MalformedEscapeRefused(id: string)
    requires id == "a%zz"
    ensures !TailParses(RecordTail(id))
  {
    var s := RecordTail(id);
    PathEndAt(s, |s|);
    assert s[..|s|] == s;
    assert s[2] == '%' && !IsHexDigit(s[3]);
    if ComponentParses(s, false) {
      ParsedComponent(s, false);
    }
  }

  lemma SecondHashRefused(id: string)
    requires id == "a#b#c"
    ensures !TailParses(RecordTail(id))
  {
    var s := RecordTail(id);
    PathEndAt(s, 2);
    var f := s[3..];
    assert !Allowed(f[1], true) && f[1] != '%';
    if ComponentParses(f, true) {
      ParsedComponent(f, true);
    }
  }

  /** A tail with no '?' or '#' whose `k`th character is refused in a path does not parse. */
  lemma PathRefuses(s: string, k: int)
    requires forall j :: 0 <= j < |s| ==> s[j] != '?' && s[j] != '#'
    requires 0 <= k < |s| && !Allowed(s[k], false) && s[k] != '%'
    ensures !TailParses(s)
  {
    PathEndAt(s, |s|);
    assert s[..|s|] == s;
    if ComponentParses(s, false) {
      ParsedComponent(s, false);
    }
  }

  /**
   * `new OsfHarvestableRecord(dto)`: the content type is the kind's type string, the
   * record and harvest infos share the id "https://osf.io/<id>/" and the source
   * "https://api.osf.io/v2/<type>/<id>/", both dates are cut to whole seconds, and the
   * body is the id's bytes. A URI that does not parse is a RuntimeException.
   */
  function NewHarvestableRecord(dto: LightRecordValue): (r: Result<HarvestRecord>)
    ensures r.Ok? <==> TailParses(RecordTail(dto.id)) && TailParses(SourceTail(dto.recordType, dto.id))
    ensures r.Ok? ==> var info := r.value.recordInfo;
      && info.contentType == TypeString(dto.recordType)
      && info.id == "https://osf.io/" + dto.id + "/"
      && info.src == "https://api.osf.io/v2/" + TypeString(dto.recordType) + "/" + dto.id + "/"
      && info.harvestInfo.id == info.id && info.harvestInfo.src == info.src
      && info.date == TruncateToSecond(dto.filterDate) && info.date % 1000 == 0
      && info.harvestInfo.date == TruncateToSecond(dto.retrievedDate)
      && Decode(r.value.body) == dto.id
  {
    var t := dto.recordType;
    UrisOfTails(t, dto.id);
    if !TailParses(RecordTail(dto.id)) || !TailParses(SourceTail(t, dto.id)) then
      Err("Could not convert OsfLightRecord to a HarvestRecord.")
    else
      var harvestInfo := HarvestInfo(RecordUri(dto.id), SourceUri(t, dto.id), TruncateToSecond(dto.retrievedDate));
      var recordInfo := RecordInfo(RecordUri(dto.id), SourceUri(t, dto.id), TypeString(t),
                                   TruncateToSecond(dto.filterDate), harvestInfo);
      DecodeEncode(dto.id);
      Ok(HarvestRecord(recordInfo, Encode(dto.id)))
  }

  /** For the listed kinds the record is built exactly when the id's record URI parses. */
  lemma ListedKindBuildsByUri(dto: LightRecordValue)
    requires !dto.recordType.OsfUnlisted?
    ensures NewHarvestableRecord(dto).Ok? <==> TailParses(RecordTail(dto.id))
  {
    var t := TypeString(dto.recordType);
    assert forall k :: 0 <= k < |t| ==> IsPathChar(t[k]);
    SourceParsesAsRecord(dto.recordType, dto.id);
  }

  /** Two records built from different ids have different record ids and different bodies. */
  lemma DistinctIdsDistinctRecords(a: LightRecordValue, b: LightRecordValue)
    requires NewHarvestableRecord(a).Ok? && NewHarvestableRecord(b).Ok?
    requires a.id != b.id
    ensures NewHarvestableRecord(a).value.recordInfo.id != NewHarvestableRecord(b).value.recordInfo.id
    ensures NewHarvestableRecord(a).value.body != NewHarvestableRecord(b).value.body
  {
    var ia, ib := RecordUri(a.id), RecordUri(b.id);
    assert ia[|OsfPathPrefix|..|ia| - 1] == a.id;
    assert ib[|OsfPathPrefix|..|ib| - 1] == b.id;
  }
}

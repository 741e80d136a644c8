/**
 * The record kinds harvested from OSF (the client library's `RecordType` enum).
 * The enum itself is not part of this model; what the loader relies on is its
 * type string and the lookup `RecordType.getType`.
 */
module RecordTypes {
  import opened Wrappers

  /** Names that the three listed constants do not use. */
  type UnlistedName = s: string | s != "node" && s != "registration" && s != "user" witness "other"

  /**
   * `OsfUnlisted` stands for any further constant of the enum that the loader's code
   * does not name; only the `default:` branches of its switches see it.
   */
  datatype RecordType = OsfNode | OsfRegistration | OsfUser | OsfUnlisted(name: UnlistedName)

  /** `getTypeString()`: the string used in queue names, source URIs and content types. */
  function TypeString(t: RecordType): (s: string)
    ensures |s| > 0 || t.OsfUnlisted?
  {
    match t
    case OsfNode => "node"
    case OsfRegistration => "registration"
    case OsfUser => "user"
    case OsfUnlisted(n) => n
  }

  /**
   * `RecordType.getType(s)` as the loader relies on it: the lookup is taken to know
   * only the three listed type strings, and to answer null for any other string.
   */
  function GetType(s: string): (r: Option<RecordType>)
    ensures r.Some? <==> s in {"node", "registration", "user"}
    ensures r.Some? ==> TypeString(r.value) == s
  {
    if s == "node" then Some(OsfNode)
    else if s == "registration" then Some(OsfRegistration)
    else if s == "user" then Some(OsfUser)
    else None
  }

  /** Looking a listed kind up by its own type string gives it back. */
  lemma GetTypeOfTypeString(t: RecordType)
    requires !t.OsfUnlisted?
    ensures GetType(TypeString(t)) == Some(t)
  {
  }
}

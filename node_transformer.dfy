/**
 * The node transformer: an OSF node, with its tree of child nodes, rendered
 * as the statements of an RMap DiSCO. The RDF model is a sequence of
 * statements in the order the transformer adds them.
 */
module NodeTransformer {
  import opened Wrappers
  import LoaderUtils
  import HarvestRecords

  /** An RDF term: an IRI, the DiSCO's own blank node, or a plain literal. */
  datatype Term = Iri(iri: string) | DiscoNode | Literal(text: string)

  /**
   * A statement of the model. The DiSCO header (the creator and description
   * the base transformer writes about the DiSCO node) is kept as one opaque
   * statement, since the base transformer is not part of this model.
   */
  datatype Stmt =
    | Triple(s: Term, p: string, o: Term)
    | DiscoHeader(creator: string, description: string)

  /** An identifier of a node, such as a DOI or an ark. */
  datatype Identifier = Identifier(category: string, value: string)

  /** A contributor: only its links matter to the DiSCO. */
  datatype Contributor = Contributor(links: map<string, string>)

  /**
   * An OSF node as the OSF client returns it. A list the client leaves null
   * is the empty sequence here, since the transformer treats both alike.
   * `category` is the value of the node's category, if it has one.
   */
  datatype Node = Node(
    id: string,
    category: Option<string>,
    identifiers: seq<Identifier>,
    forkedFrom: Option<string>,
    dateCreated: Option<string>,
    title: Option<string>,
    description: Option<string>,
    contributors: seq<Contributor>,
    children: seq<Node>)

  /**
   * The DOI helpers of the transformer utilities, which are not part of this
   * model: a DOI test, a normaliser to the http form, and the two prefixes.
   */
  datatype DoiRules = DoiRules(
    isDoi: string -> bool,
    normalize: string -> string,
    httpPrefix: string,
    nonHttpPrefix: string)

  const DefaultDescription: string := "Record harvested from OSF API"
  /** The default creator follows RMap's agent namespace, which is not part of this model. */
  const DefaultCreatorName: string := "RMap-OSF-Harvester-0.1"
  const OsfTermsPrefix: string := "http://osf.io/terms/"
  const OsfRegistration: string := OsfTermsPrefix + "Registration"
  const OsfProject: string := OsfTermsPrefix + "Project"
  const DoiIdCategory: string := "doi"
  const ArkIdCategory: string := "ark"
  const ArkPrefix: string := "ark:/"

  const OreAggregates: string := "http://www.openarchives.org/ore/terms/aggregates"
  const DctHasPart: string := "http://purl.org/dc/terms/hasPart"
  const DctIdentifier: string := "http://purl.org/dc/terms/identifier"
  const DctContributor: string := "http://purl.org/dc/terms/contributor"
  const DctCreated: string := "http://purl.org/dc/terms/created"
  const DctTitle: string := "http://purl.org/dc/terms/title"
  const DctDescription: string := "http://purl.org/dc/terms/description"
  const RdfType: string := "http://www.w3.org/1999/02/22-rdf-syntax-ns#type"
  const FoafPerson: string := "http://xmlns.com/foaf/0.1/Person"
  const ProvWasDerivedFrom: string := "http://www.w3.org/ns/prov#wasDerivedFrom"

  // ---------------------------------------------------------------------
  // String rules
  // ---------------------------------------------------------------------

  /** Every occurrence of character `a` in `s` replaced by `b`. */
  function ReplaceChar(s: string, a: char, b: char): (r: string)
    ensures |r| == |s|
    ensures forall k :: 0 <= k < |s| ==> r[k] == (if s[k] == a then b else s[k])
  {
    if s == [] then [] else [if s[0] == a then b else s[0]] + ReplaceChar(s[1..], a, b)
  }

  /** Upper case of an ASCII letter; any other character is unchanged. */
  function UpperAscii(c: char): char
  {
    if 'a' <= c <= 'z' then (c as int - 32) as char else c
  }

  /** `target` occurs somewhere in `s`. */
  predicate Occurs(target: string, s: string)
  {
    exists k :: 0 <= k <= |s| && target <= s[k..]
  }

  /** `repl` inserted before every character of `s` and at its end. */
  function InsertEverywhere(s: string, repl: string): string
  {
    if s == [] then repl else repl + [s[0]] + InsertEverywhere(s[1..], repl)
  }

  /**
   * Replacement of every occurrence of `target` in `s` by `repl`, scanning
   * left to right without overlap; an empty target matches before every
   * character and at the end (the rule of Java's `String.replace`).
   */
  function Replace(s: string, target: string, repl: string): string
    decreases |s|
  {
    if |target| == 0 then InsertEverywhere(s, repl)
    else if target <= s then repl + Replace(s[|target|..], target, repl)
    else if s == [] then []
    else [s[0]] + Replace(s[1..], target, repl)
  }

  /** A string that starts with a non-empty target has that start replaced. */
  lemma ReplaceAtStart(target: string, rest: string, repl: string)
    requires |target| > 0
    ensures Replace(target + rest, target, repl) == repl + Replace(rest, target, repl)
  {
    assert target <= target + rest;
    assert (target + rest)[|target|..] == rest;
  }

  /** An occurrence in the tail of a string is an occurrence in the string. */
  lemma OccursInTail(target: string, s: string)
    requires s != [] && Occurs(target, s[1..])
    ensures Occurs(target, s)
  {
    var k :| 0 <= k <= |s[1..]| && target <= s[1..][k..];
    assert s[k + 1..] == s[1..][k..];
  }

  /** A string in which a non-empty target does not occur is left unchanged. */
  lemma {:induction false} ReplaceAbsent(s: string, target: string, repl: string)
    requires |target| > 0
    ensures !Occurs(target, s) ==> Replace(s, target, repl) == s
    decreases |s|
  {
    if target <= s {
      assert s[0..] == s;
      assert Occurs(target, s);
    } else if s != [] {
      if Occurs(target, s[1..]) {
        OccursInTail(target, s);
      }
      ReplaceAbsent(s[1..], target, repl);
      assert s == [s[0]] + s[1..];
    }
  }

  /** A character that does not occur is not replaced. */
  lemma ReplaceCharAbsent(s: string, a: char, b: char)
    requires a !in s
    ensures ReplaceChar(s, a, b) == s
  {
  }

  /**
   * The model of `mapCategoryToIri`: no category maps to no IRI; an empty
   * category value fails, since taking its first letter is out of range;
   * otherwise spaces become dashes, the first letter is upper-cased and the
   * OSF terms prefix is put in front.
   */
  function MapCategoryToIri(category: Option<string>): (r: Result<Option<string>>)
    ensures category.None? ==> r == Ok(None)
    ensures category.Some? ==> (r.Err? <==> category.value == "")
    ensures category.Some? && r.Ok? ==>
      var c := category.value;
      var n := |OsfTermsPrefix|;
      && r.value.Some?
      && |r.value.value| == n + |c|
      && r.value.value[..n] == OsfTermsPrefix
      && r.value.value[n] == UpperAscii(if c[0] == ' ' then '-' else c[0])
      && (forall k :: 1 <= k < |c| ==> r.value.value[n + k] == (if c[k] == ' ' then '-' else c[k]))
  {
    match category
    case None => Ok(None)
    case Some(value) =>
      var cat := ReplaceChar(value, ' ', '-');
      if |cat| == 0 then Err("String index out of range: 1")
      else
        var iri := OsfTermsPrefix + ([UpperAscii(cat[0])] + cat[1..]);
        assert forall k :: 1 <= k < |cat| ==> iri[|OsfTermsPrefix| + k] == cat[k];
        Ok(Some(iri))
  }

  /** A category value without spaces only has its first letter upper-cased. */
  lemma MapCategoryWithoutSpaces(c: string)
    requires |c| > 0 && ' ' !in c
    ensures MapCategoryToIri(Some(c)) == Ok(Some(OsfTermsPrefix + ([UpperAscii(c[0])] + c[1..])))
  {
    ReplaceCharAbsent(c, ' ', '-');
  }

  /** The category value "project" maps to the OSF project term. */
  lemma ProjectTerm()
    ensures MapCategoryToIri(Some("project")) == Ok(Some(OsfProject))
  {
    assert [UpperAscii('p')] + "project"[1..] == "Project";
    MapCategoryWithoutSpaces("project");
  }

  /** The category value "registration" maps to the OSF registration term. */
  lemma RegistrationTerm()
    ensures MapCategoryToIri(Some("registration")) == Ok(Some(OsfRegistration))
  {
    assert [UpperAscii('r')] + "registration"[1..] == "Registration";
    MapCategoryWithoutSpaces("registration");
  }

  /** A category value with no space and a capital first letter is kept as is. */
  lemma {:induction false} MapCategoryKeepsCapitalised(c: string)
    requires |c| > 0 && ' ' !in c && 'A' <= c[0] <= 'Z'
    ensures MapCategoryToIri(Some(c)) == Ok(Some(OsfTermsPrefix + c))
  {
    var r := MapCategoryToIri(Some(c)).value.value;
    assert r[..|OsfTermsPrefix|] == OsfTermsPrefix;
    assert forall k :: 0 <= k < |c| ==> r[|OsfTermsPrefix| + k] == c[k];
    assert r == OsfTermsPrefix + c;
  }

  // ---------------------------------------------------------------------
  // Statements of one node
  // ---------------------------------------------------------------------

  /** The dcterms:identifier statements for one identifier of `subject`. */
  function IdentifierStmts(rules: DoiRules, subject: string, id: Identifier): (r: seq<Stmt>)
    ensures id.category == DoiIdCategory && rules.isDoi(id.value) ==>
      var doi := rules.normalize(id.value);
      r == [Triple(Iri(subject), DctIdentifier, Iri(doi)),
            Triple(Iri(subject), DctIdentifier, Iri(Replace(doi, rules.httpPrefix, rules.nonHttpPrefix)))]
    ensures id.category == ArkIdCategory ==> r == [Triple(Iri(subject), DctIdentifier, Iri(ArkPrefix + id.value))]
    ensures id.category != DoiIdCategory && id.category != ArkIdCategory ==> r == []
    ensures id.category == DoiIdCategory && !rules.isDoi(id.value) ==> r == []
  {
    if id.category == DoiIdCategory && rules.isDoi(id.value) then
      var doi := rules.normalize(id.value);
      [Triple(Iri(subject), DctIdentifier, Iri(doi)),
       Triple(Iri(subject), DctIdentifier, Iri(Replace(doi, rules.httpPrefix, rules.nonHttpPrefix)))]
    else if id.category == ArkIdCategory then
      [Triple(Iri(subject), DctIdentifier, Iri(ArkPrefix + id.value))]
    else
      []
  }

  /**
   * A DOI whose normal form is the http prefix followed by a rest that does
   * not contain that prefix gets, as its second statement, the non-http
   * prefix followed by the same rest.
   */
  lemma DoiSecondFormSwapsPrefix(rules: DoiRules, subject: string, id: Identifier, rest: string)
    requires id.category == DoiIdCategory && rules.isDoi(id.value)
    requires rules.normalize(id.value) == rules.httpPrefix + rest
    requires |rules.httpPrefix| > 0 && !Occurs(rules.httpPrefix, rest)
    ensures IdentifierStmts(rules, subject, id)[1]
         == Triple(Iri(subject), DctIdentifier, Iri(rules.nonHttpPrefix + rest))
  {
    ReplaceAtStart(rules.httpPrefix, rest, rules.nonHttpPrefix);
    ReplaceAbsent(rest, rules.httpPrefix, rules.nonHttpPrefix);
  }

  /** The identifier statements of a list of identifiers, in list order. */
  function IdentifiersStmts(rules: DoiRules, subject: string, ids: seq<Identifier>): (r: seq<Stmt>)
    ensures forall k :: 0 <= k < |r| ==> r[k].Triple? && r[k].s == Iri(subject) && r[k].p == DctIdentifier
    ensures |r| <= 2 * |ids|
  {
    if ids == [] then []
    else IdentifiersStmts(rules, subject, ids[..|ids| - 1]) + IdentifierStmts(rules, subject, ids[|ids| - 1])
  }

  /**
   * The IRI of a contributor: the last path segment of its "self" link under
   * the OSF path prefix, with Java's "null" when there is no such segment.
   */
  function ContributorIri(c: Contributor): string
  {
    var link := if "self" in c.links then Some(c.links["self"]) else None;
    var segment := LoaderUtils.ExtractLastSubFolder(link);
    HarvestRecords.OsfPathPrefix + (if segment.Some? then segment.value else "null") + "/"
  }

  /** The contributor statements, two per contributor, in list order. */
  function ContributorsStmts(subject: string, cs: seq<Contributor>): (r: seq<Stmt>)
    ensures |r| == 2 * |cs|
  {
    if cs == [] then []
    else
      var last := ContributorIri(cs[|cs| - 1]);
      ContributorsStmts(subject, cs[..|cs| - 1])
        + [Triple(Iri(subject), DctContributor, Iri(last)), Triple(Iri(last), RdfType, Iri(FoafPerson))]
  }

  /**
   * Each contributor gives a dcterms:contributor statement from the node to
   * the contributor's IRI, followed by a foaf:Person type for that IRI.
   */
  lemma {:induction false} ContributorPairs(subject: string, cs: seq<Contributor>)
    ensures forall k :: 0 <= k < |cs| ==>
      && ContributorsStmts(subject, cs)[2 * k] == Triple(Iri(subject), DctContributor, Iri(ContributorIri(cs[k])))
      && ContributorsStmts(subject, cs)[2 * k + 1] == Triple(Iri(ContributorIri(cs[k])), RdfType, Iri(FoafPerson))
  {
    forall k | 0 <= k < |cs|
      ensures ContributorsStmts(subject, cs)[2 * k] == Triple(Iri(subject), DctContributor, Iri(ContributorIri(cs[k])))
      ensures ContributorsStmts(subject, cs)[2 * k + 1] == Triple(Iri(ContributorIri(cs[k])), RdfType, Iri(FoafPerson))
    {
      ContributorPairAt(subject, cs, k);
    }
  }

  /** The pair of statements for the contributor at position k. */
  lemma {:induction false} ContributorPairAt(subject: string, cs: seq<Contributor>, k: nat)
    requires k < |cs|
    ensures ContributorsStmts(subject, cs)[2 * k] == Triple(Iri(subject), DctContributor, Iri(ContributorIri(cs[k])))
    ensures ContributorsStmts(subject, cs)[2 * k + 1] == Triple(Iri(ContributorIri(cs[k])), RdfType, Iri(FoafPerson))
    decreases |cs|
  {
    var front := cs[..|cs| - 1];
    var head := ContributorsStmts(subject, front);
    var last := ContributorIri(cs[|cs| - 1]);
    var tail := [Triple(Iri(subject), DctContributor, Iri(last)), Triple(Iri(last), RdfType, Iri(FoafPerson))];
    assert ContributorsStmts(subject, cs) == head + tail;
    if k < |front| {
      ContributorPairAt(subject, front, k);
      assert front[k] == cs[k];
      assert (head + tail)[2 * k] == head[2 * k] && (head + tail)[2 * k + 1] == head[2 * k + 1];
    } else {
      assert (head + tail)[2 * k] == tail[0] && (head + tail)[2 * k + 1] == tail[1];
    }
  }

  /** Contributor statements are descriptive. */
  lemma {:induction false} ContributorsDescriptive(subject: string, cs: seq<Contributor>)
    ensures forall k :: 0 <= k < |ContributorsStmts(subject, cs)| ==> Descriptive(ContributorsStmts(subject, cs)[k])
  {
    if cs != [] {
      ContributorsDescriptive(subject, cs[..|cs| - 1]);
    }
  }

  /** The fork statement, present only for a fork reference that is neither null nor empty. */
  function ForkedFromStmts(subject: string, forkRef: Option<string>): (r: seq<Stmt>)
    ensures r == [] <==> (forkRef.None? || forkRef.value == "")
    ensures r != [] ==>
      var segment := LoaderUtils.ExtractLastSubFolder(forkRef);
      r == [Triple(Iri(subject), ProvWasDerivedFrom,
                   Iri(HarvestRecords.OsfPathPrefix + (if segment.Some? then segment.value else "null") + "/"))]
  {
    if forkRef.Some? && |forkRef.value| > 0 then
      var segment := LoaderUtils.ExtractLastSubFolder(forkRef);
      [Triple(Iri(subject), ProvWasDerivedFrom,
              Iri(HarvestRecords.OsfPathPrefix + (if segment.Some? then segment.value else "null") + "/"))]
    else []
  }

  /** A literal statement, skipped when the value is null. */
  function LiteralStmts(subject: string, p: string, value: Option<string>): seq<Stmt>
  {
    if value.Some? then [Triple(Iri(subject), p, Literal(value.value))] else []
  }

  /**
   * A statement that says nothing about the tree's shape: a triple about an
   * IRI (not about the DiSCO node) with a predicate other than dcterms:hasPart.
   */
  predicate Descriptive(st: Stmt)
  {
    st.Triple? && st.s.Iri? && st.p != DctHasPart
  }

  /** The statements about the tree's shape that `addNode` adds for a node. */
  function StructureStmts(n: Node, parentIri: Option<string>): seq<Stmt>
  {
    var iri := HarvestRecords.RecordUri(n.id);
    [Triple(DiscoNode, OreAggregates, Iri(iri))]
      + (if parentIri.Some? then [Triple(Iri(parentIri.value), DctHasPart, Iri(iri))] else [])
  }

  /** The statements describing a node itself: its type, identifiers, fork, literals and contributors. */
  function DescriptionStmts(rules: DoiRules, n: Node, category: Option<string>): seq<Stmt>
  {
    var iri := HarvestRecords.RecordUri(n.id);
    (if category.Some? then [Triple(Iri(iri), RdfType, Iri(category.value))] else [])
      + IdentifiersStmts(rules, iri, n.identifiers)
      + ForkedFromStmts(iri, n.forkedFrom)
      + LiteralStmts(iri, DctCreated, n.dateCreated)
      + LiteralStmts(iri, DctTitle, n.title)
      + LiteralStmts(iri, DctDescription, n.description)
      + ContributorsStmts(iri, n.contributors)
  }

  /** A node's description says nothing about the tree's shape. */
  lemma DescriptionIsDescriptive(rules: DoiRules, n: Node, category: Option<string>)
    ensures forall k :: 0 <= k < |DescriptionStmts(rules, n, category)| ==> Descriptive(DescriptionStmts(rules, n, category)[k])
  {
    ContributorsDescriptive(HarvestRecords.RecordUri(n.id), n.contributors);
  }

  /** The statements `addNode` adds about a node before it turns to the children. */
  function OwnStmts(rules: DoiRules, n: Node, parentIri: Option<string>, category: Option<string>): seq<Stmt>
  {
    StructureStmts(n, parentIri) + DescriptionStmts(rules, n, category)
  }

  /**
   * The statements of a node and all its descendants, in the order of the
   * depth-first walk of `addNode`; an error when some node in the tree has
   * an empty category value.
   */
  function NodeStmts(rules: DoiRules, n: Node, parentIri: Option<string>): Result<seq<Stmt>>
    decreases n
  {
    match MapCategoryToIri(n.category)
    case Err(e) => Err(e)
    case Ok(category) =>
      match ChildrenStmts(rules, n.children, HarvestRecords.RecordUri(n.id))
      case Err(e) => Err(e)
      case Ok(rest) => Ok(OwnStmts(rules, n, parentIri, category) + rest)
  }

  /** The statements of a list of sibling nodes under one parent, in list order. */
  function ChildrenStmts(rules: DoiRules, cs: seq<Node>, parentIri: string): Result<seq<Stmt>>
    decreases cs
  {
    if cs == [] then Ok([])
    else
      match ChildrenStmts(rules, cs[..|cs| - 1], parentIri)
      case Err(e) => Err(e)
      case Ok(front) =>
        match NodeStmts(rules, cs[|cs| - 1], Some(parentIri))
        case Err(e) => Err(e)
        case Ok(last) => Ok(front + last)
  }

  /** The whole DiSCO model of a record: the header, then the node tree. */
  function DiscoModel(rules: DoiRules, record: Node, creator: string, description: string): Result<seq<Stmt>>
  {
    match NodeStmts(rules, record, None)
    case Err(e) => Err(e)
    case Ok(body) => Ok([DiscoHeader(creator, description)] + body)
  }

  // ---------------------------------------------------------------------
  // The shape of the tree in the model
  // ---------------------------------------------------------------------

  /** Every node of the tree has a category that can be mapped (none, or a non-empty value). */
  predicate Mappable(n: Node)
    decreases n
  {
    n.category != Some("") && ForestMappable(n.children)
  }

  predicate ForestMappable(cs: seq<Node>)
    decreases cs
  {
    forall k :: 0 <= k < |cs| ==> Mappable(cs[k])
  }

  /** The IRIs of all nodes of a tree in depth-first order, the root first. */
  function TreeIris(n: Node): (r: seq<string>)
    ensures |r| > 0 && r[0] == HarvestRecords.RecordUri(n.id)
    decreases n
  {
    [HarvestRecords.RecordUri(n.id)] + ForestIris(n.children)
  }

  function ForestIris(cs: seq<Node>): seq<string>
    decreases cs
  {
    if cs == [] then [] else ForestIris(cs[..|cs| - 1]) + TreeIris(cs[|cs| - 1])
  }

  /** The (parent, child) IRI pairs of a tree in depth-first order, led by the edge into the root if it has a parent. */
  function TreeEdges(n: Node, parentIri: Option<string>): (r: seq<(string, string)>)
    ensures parentIri.Some? ==> (parentIri.value, HarvestRecords.RecordUri(n.id)) in r
    decreases n
  {
    (if parentIri.Some? then [(parentIri.value, HarvestRecords.RecordUri(n.id))] else [])
      + ForestEdges(n.children, HarvestRecords.RecordUri(n.id))
  }

  function ForestEdges(cs: seq<Node>, parentIri: string): (r: seq<(string, string)>)
    ensures forall k :: 0 <= k < |cs| ==> (parentIri, HarvestRecords.RecordUri(cs[k].id)) in r
    decreases cs
  {
    if cs == [] then []
    else
      var front := ForestEdges(cs[..|cs| - 1], parentIri);
      assert forall k :: 0 <= k < |cs| - 1 ==> cs[..|cs| - 1][k] == cs[k];
      front + TreeEdges(cs[|cs| - 1], Some(parentIri))
  }

  /** The child ends of a list of edges. */
  function Targets(es: seq<(string, string)>): seq<string>
  {
    if es == [] then [] else Targets(es[..|es| - 1]) + [es[|es| - 1].1]
  }

  /** The IRIs the DiSCO node aggregates, in the order of the statements. */
  function Aggregated(stmts: seq<Stmt>): seq<string>
  {
    if stmts == [] then []
    else
      var st := stmts[|stmts| - 1];
      Aggregated(stmts[..|stmts| - 1])
        + (if st.Triple? && st.s == DiscoNode && st.p == OreAggregates && st.o.Iri? then [st.o.iri] else [])
  }

  /** The (whole, part) IRI pairs of the dcterms:hasPart statements, in order. */
  function Parts(stmts: seq<Stmt>): seq<(string, string)>
  {
    if stmts == [] then []
    else
      var st := stmts[|stmts| - 1];
      Parts(stmts[..|stmts| - 1])
        + (if st.Triple? && st.s.Iri? && st.p == DctHasPart && st.o.Iri? then [(st.s.iri, st.o.iri)] else [])
  }

  lemma {:induction false} AggregatedAppend(a: seq<Stmt>, b: seq<Stmt>)
    ensures Aggregated(a + b) == Aggregated(a) + Aggregated(b)
    ensures Parts(a + b) == Parts(a) + Parts(b)
    decreases |b|
  {
    if b == [] {
      assert a + b == a;
    } else {
      assert (a + b)[..|a + b| - 1] == a + b[..|b| - 1];
      AggregatedAppend(a, b[..|b| - 1]);
    }
  }

  lemma {:induction false} TargetsAppend(a: seq<(string, string)>, b: seq<(string, string)>)
    ensures Targets(a + b) == Targets(a) + Targets(b)
    decreases |b|
  {
    if b == [] {
      assert a + b == a;
    } else {
      assert (a + b)[..|a + b| - 1] == a + b[..|b| - 1];
      TargetsAppend(a, b[..|b| - 1]);
    }
  }

  /** Descriptive statements neither aggregate nor relate a whole to a part. */
  lemma {:induction false} DescriptiveIsShapeless(stmts: seq<Stmt>)
    requires forall k :: 0 <= k < |stmts| ==> Descriptive(stmts[k])
    ensures Aggregated(stmts) == [] && Parts(stmts) == []
    decreases |stmts|
  {
    if stmts != [] {
      DescriptiveIsShapeless(stmts[..|stmts| - 1]);
    }
  }

  /** The model of a tree fails exactly when some node has an empty category value. */
  lemma {:induction false} TreeOkIffMappable(rules: DoiRules, n: Node, parentIri: Option<string>)
    ensures NodeStmts(rules, n, parentIri).Ok? <==> Mappable(n)
    decreases n
  {
    ForestOkIffMappable(rules, n.children, HarvestRecords.RecordUri(n.id));
  }

  lemma {:induction false} ForestOkIffMappable(rules: DoiRules, cs: seq<Node>, parentIri: string)
    ensures ChildrenStmts(rules, cs, parentIri).Ok? <==> ForestMappable(cs)
    decreases cs
  {
    if cs != [] {
      var front := cs[..|cs| - 1];
      ForestOkIffMappable(rules, front, parentIri);
      TreeOkIffMappable(rules, cs[|cs| - 1], Some(parentIri));
      assert forall k :: 0 <= k < |front| ==> front[k] == cs[k];
      assert ForestMappable(cs) <==> ForestMappable(front) && Mappable(cs[|cs| - 1]);
    }
  }

  /**
   * In the statements of a tree, the DiSCO aggregates every node, root and
   * descendants, in depth-first order, and the hasPart statements are
   * exactly the tree's parent-child edges.
   */
  lemma {:induction false} TreeShape(rules: DoiRules, n: Node, parentIri: Option<string>)
    requires NodeStmts(rules, n, parentIri).Ok?
    ensures Aggregated(NodeStmts(rules, n, parentIri).value) == TreeIris(n)
    ensures Parts(NodeStmts(rules, n, parentIri).value) == TreeEdges(n, parentIri)
    decreases n
  {
    var category := MapCategoryToIri(n.category).value;
    var iri := HarvestRecords.RecordUri(n.id);
    ForestShape(rules, n.children, iri);
    OwnShape(rules, n, parentIri, category);
    AggregatedAppend(OwnStmts(rules, n, parentIri, category), ChildrenStmts(rules, n.children, iri).value);
  }

  /** A node's own statements aggregate the node once and hold only the hasPart edge from its parent. */
  lemma OwnShape(rules: DoiRules, n: Node, parentIri: Option<string>, category: Option<string>)
    ensures Aggregated(OwnStmts(rules, n, parentIri, category)) == [HarvestRecords.RecordUri(n.id)]
    ensures Parts(OwnStmts(rules, n, parentIri, category))
         == (if parentIri.Some? then [(parentIri.value, HarvestRecords.RecordUri(n.id))] else [])
  {
    var iri := HarvestRecords.RecordUri(n.id);
    var aggregates := [Triple(DiscoNode, OreAggregates, Iri(iri))];
    var hasPart := if parentIri.Some? then [Triple(Iri(parentIri.value), DctHasPart, Iri(iri))] else [];
    var description := DescriptionStmts(rules, n, category);
    DescriptionIsDescriptive(rules, n, category);
    DescriptiveIsShapeless(description);
    AggregatedAppend(aggregates, hasPart);
    AggregatedAppend(aggregates + hasPart, description);
    assert aggregates[..0] == [];
    if parentIri.Some? {
      assert hasPart[..0] == [];
    }
  }

  lemma {:induction false} ForestShape(rules: DoiRules, cs: seq<Node>, parentIri: string)
    requires ChildrenStmts(rules, cs, parentIri).Ok?
    ensures Aggregated(ChildrenStmts(rules, cs, parentIri).value) == ForestIris(cs)
    ensures Parts(ChildrenStmts(rules, cs, parentIri).value) == ForestEdges(cs, parentIri)
    decreases cs
  {
    if cs != [] {
      var front := cs[..|cs| - 1];
      ForestShape(rules, front, parentIri);
      TreeShape(rules, cs[|cs| - 1], Some(parentIri));
      AggregatedAppend(ChildrenStmts(rules, front, parentIri).value, NodeStmts(rules, cs[|cs| - 1], Some(parentIri)).value);
    }
  }

  /** The child ends of a tree's edges are its nodes, less the root when it has no parent. */
  lemma {:induction false} TreeTargets(n: Node, parentIri: Option<string>)
    ensures Targets(TreeEdges(n, parentIri)) == (if parentIri.Some? then TreeIris(n) else TreeIris(n)[1..])
    decreases n
  {
    var iri := HarvestRecords.RecordUri(n.id);
    ForestTargets(n.children, iri);
    var head: seq<(string, string)> := if parentIri.Some? then [(parentIri.value, iri)] else [];
    TargetsAppend(head, ForestEdges(n.children, iri));
    if parentIri.Some? {
      assert Targets(head) == [iri] by {
        assert head[..0] == [];
      }
    }
  }

  lemma {:induction false} ForestTargets(cs: seq<Node>, parentIri: string)
    ensures Targets(ForestEdges(cs, parentIri)) == ForestIris(cs)
    decreases cs
  {
    if cs != [] {
      ForestTargets(cs[..|cs| - 1], parentIri);
      TreeTargets(cs[|cs| - 1], Some(parentIri));
      TargetsAppend(ForestEdges(cs[..|cs| - 1], parentIri), TreeEdges(cs[|cs| - 1], Some(parentIri)));
    }
  }

  /** The DiSCO model of a record fails exactly when some node of its tree has an empty category value. */
  lemma DiscoModelOkIffMappable(rules: DoiRules, record: Node, creator: string, description: string)
    ensures DiscoModel(rules, record, creator, description).Ok? <==> Mappable(record)
  {
    TreeOkIffMappable(rules, record, None);
  }

  /**
   * The DiSCO model aggregates every node of the record's tree, root first in
   * depth-first order; its hasPart statements are the tree's parent-child
   * edges; and their parts are all the nodes but the root, so the root is
   * the part of nothing unless its id recurs below it.
   */
  lemma DiscoModelShape(rules: DoiRules, record: Node, creator: string, description: string)
    requires DiscoModel(rules, record, creator, description).Ok?
    ensures Aggregated(DiscoModel(rules, record, creator, description).value) == TreeIris(record)
    ensures Parts(DiscoModel(rules, record, creator, description).value) == TreeEdges(record, None)
    ensures Targets(Parts(DiscoModel(rules, record, creator, description).value)) == TreeIris(record)[1..]
    ensures forall k :: 0 <= k < |record.children| ==>
      (HarvestRecords.RecordUri(record.id), HarvestRecords.RecordUri(record.children[k].id))
        in Parts(DiscoModel(rules, record, creator, description).value)
  {
    var body := NodeStmts(rules, record, None).value;
    TreeShape(rules, record, None);
    TreeTargets(record, None);
    AggregatedAppend([DiscoHeader(creator, description)], body);
    assert Aggregated([DiscoHeader(creator, description)]) == [] by {
      assert [DiscoHeader(creator, description)][..0] == [];
    }
  }

  // ---------------------------------------------------------------------
  // The transformer object
  // ---------------------------------------------------------------------

  /**
   * The node transformer: holds the record to convert, and the DiSCO node
   * and model of the last conversion. The DiSCO node is a fresh blank node
   * in the source; only one is ever live, so one constant term stands for it.
   */
  class OsfNodeDiscoTransformer {
    var record: Option<Node>
    var discoId: Option<Term>
    var model: Option<seq<Stmt>>
    const discoCreator: string
    const discoDescription: string
    const rules: DoiRules

    /** Every constructor of the source: a record (or none), a creator and a description. */
    constructor(record: Option<Node>, discoCreator: string, discoDescription: string, rules: DoiRules)
      ensures this.record == record && discoId.None? && model.None?
      ensures this.discoCreator == discoCreator && this.discoDescription == discoDescription
      ensures this.rules == rules
    {
      this.discoCreator := discoCreator;
      this.discoDescription := discoDescription;
      this.rules := rules;
      this.record := record;
      discoId := None;
      model := None;
    }

    /** The no-argument constructor: no record, the default creator and description. */
    constructor Default(agentNamespace: string, rules: DoiRules)
      ensures record.None? && discoId.None? && model.None?
      ensures discoCreator == agentNamespace + DefaultCreatorName && discoDescription == DefaultDescription
      ensures this.rules == rules
    {
      discoCreator := agentNamespace + DefaultCreatorName;
      discoDescription := DefaultDescription;
      this.rules := rules;
      record := None;
      discoId := None;
      model := None;
    }

    /** A new record to convert discards the DiSCO node and model of the last one. */
    method SetRecord(record: Option<Node>)
      modifies this
      ensures this.record == record && discoId.None? && model.None?
    {
      this.record := record;
      discoId := None;
      model := None;
    }

    /**
     * Builds the model of the record: fails, changing nothing, when no record
     * is set; otherwise the result is the DiSCO model of the record, which
     * the transformer also keeps.
     */
    method GetModel() returns (r: Result<seq<Stmt>>)
      modifies this
      ensures record == old(record)
      ensures old(record).None? ==> r.Err? && model == old(model) && discoId == old(discoId)
      ensures old(record).Some? ==>
        && (r.Ok? <==> DiscoModel(rules, record.value, discoCreator, discoDescription).Ok?)
        && (r.Ok? ==> r.value == DiscoModel(rules, record.value, discoCreator, discoDescription).value)
        && discoId == Some(DiscoNode)
      ensures r.Ok? ==> model == Some(r.value)
    {
      if record.None? {
        return Err("Record value not set. Record value required before a model can be retrieved");
      }
      model := Some([]);
      discoId := Some(DiscoNode);
      model := Some(model.value + [DiscoHeader(discoCreator, discoDescription)]);
      var ok := AddNode(record.value, None);
      if !ok {
        return Err("String index out of range: 1");
      }
      return Ok(model.value);
    }

    /** Adds the statements of a node and its descendants; false when a category cannot be mapped. */
    method AddNode(node: Node, parentIri: Option<string>) returns (ok: bool)
      requires model.Some? && discoId == Some(DiscoNode)
      modifies this`model
      ensures model.Some?
      ensures ok <==> NodeStmts(rules, node, parentIri).Ok?
      ensures ok ==> model.value == old(model.value) + NodeStmts(rules, node, parentIri).value
      decreases node
    {
      var nodeIri := HarvestRecords.RecordUri(node.id);
      model := Some(model.value + [Triple(discoId.value, OreAggregates, Iri(nodeIri))]);
      if parentIri.Some? {
        model := Some(model.value + [Triple(Iri(parentIri.value), DctHasPart, Iri(nodeIri))]);
      }
      ghost var structure := model.value;
      assert structure == old(model.value) + StructureStmts(node, parentIri);
      var category := MapCategoryToIri(node.category);
      if category.Err? {
        return false;
      }
      AddDescription(node, nodeIri, category.value);
      ghost var own := model.value;
      Assoc(old(model.value), StructureStmts(node, parentIri), DescriptionStmts(rules, node, category.value));
      ok := AddChildNodes(node.children, nodeIri);
      if ok {
        Assoc(old(model.value), OwnStmts(rules, node, parentIri, category.value),
              ChildrenStmts(rules, node.children, nodeIri).value);
      }
    }

    /** Adds the statements describing a node: type, identifiers, fork, literals and contributors. */
    method AddDescription(node: Node, nodeIri: string, category: Option<string>)
      requires model.Some? && nodeIri == HarvestRecords.RecordUri(node.id)
      modifies this`model
      ensures model.Some? && model.value == old(model.value) + DescriptionStmts(rules, node, category)
    {
      ghost var start := model.value;
      ghost var acc: seq<Stmt> := if category.Some? then [Triple(Iri(nodeIri), RdfType, Iri(category.value))] else [];
      if category.Some? {
        model := Some(model.value + [Triple(Iri(nodeIri), RdfType, Iri(category.value))]);
      } else {
        assert start + acc == start;
      }
      assert model.value == start + acc;
      AddIdentifiers(node.identifiers, nodeIri);
      Assoc(start, acc, IdentifiersStmts(rules, nodeIri, node.identifiers));
      acc := acc + IdentifiersStmts(rules, nodeIri, node.identifiers);
      assert model.value == start + acc;
      AddForkedFrom(node.forkedFrom, nodeIri);
      Assoc(start, acc, ForkedFromStmts(nodeIri, node.forkedFrom));
      acc := acc + ForkedFromStmts(nodeIri, node.forkedFrom);
      assert model.value == start + acc;
      AddLiteral(nodeIri, DctCreated, node.dateCreated);
      Assoc(start, acc, LiteralStmts(nodeIri, DctCreated, node.dateCreated));
      acc := acc + LiteralStmts(nodeIri, DctCreated, node.dateCreated);
      assert model.value == start + acc;
      AddLiteral(nodeIri, DctTitle, node.title);
      Assoc(start, acc, LiteralStmts(nodeIri, DctTitle, node.title));
      acc := acc + LiteralStmts(nodeIri, DctTitle, node.title);
      assert model.value == start + acc;
      AddLiteral(nodeIri, DctDescription, node.description);
      Assoc(start, acc, LiteralStmts(nodeIri, DctDescription, node.description));
      acc := acc + LiteralStmts(nodeIri, DctDescription, node.description);
      assert model.value == start + acc;
      AddContributors(node.contributors, nodeIri);
      Assoc(start, acc, ContributorsStmts(nodeIri, node.contributors));
      acc := acc + ContributorsStmts(nodeIri, node.contributors);
      assert model.value == start + acc;
      assert acc == DescriptionStmts(rules, node, category);
    }

    /** Adds the statements of each child in turn; stops with false at the first that fails. */
    method AddChildNodes(children: seq<Node>, parentIri: string) returns (ok: bool)
      requires model.Some? && discoId == Some(DiscoNode)
      modifies this`model
      ensures model.Some?
      ensures ok <==> ChildrenStmts(rules, children, parentIri).Ok?
      ensures ok ==> model.value == old(model.value) + ChildrenStmts(rules, children, parentIri).value
      decreases children
    {
      ghost var start := model.value;
      var i := 0;
      while i < |children|
        invariant 0 <= i <= |children|
        invariant model.Some?
        invariant ChildrenStmts(rules, children[..i], parentIri).Ok?
        invariant model.value == start + ChildrenStmts(rules, children[..i], parentIri).value
      {
        var childOk := AddNode(children[i], Some(parentIri));
        ChildrenSnoc(rules, children, i, parentIri);
        if !childOk {
          ChildrenErrExtends(rules, children, i + 1, parentIri);
          return false;
        }
        Assoc(start, ChildrenStmts(rules, children[..i], parentIri).value,
              NodeStmts(rules, children[i], Some(parentIri)).value);
        i := i + 1;
      }
      assert children[..i] == children;
      return true;
    }

    /** Adds the identifier statements of each identifier in turn. */
    method AddIdentifiers(identifiers: seq<Identifier>, subject: string)
      requires model.Some?
      modifies this`model
      ensures model.Some? && model.value == old(model.value) + IdentifiersStmts(rules, subject, identifiers)
    {
      ghost var start := model.value;
      for i := 0 to |identifiers|
        invariant model.Some? && model.value == start + IdentifiersStmts(rules, subject, identifiers[..i])
      {
        var identifier := identifiers[i];
        if identifier.category == DoiIdCategory && rules.isDoi(identifier.value) {
          var doi := rules.normalize(identifier.value);
          model := Some(model.value + [Triple(Iri(subject), DctIdentifier, Iri(doi))]);
          doi := Replace(doi, rules.httpPrefix, rules.nonHttpPrefix);
          model := Some(model.value + [Triple(Iri(subject), DctIdentifier, Iri(doi))]);
        } else if identifier.category == ArkIdCategory {
          model := Some(model.value + [Triple(Iri(subject), DctIdentifier, Iri(ArkPrefix + identifier.value))]);
        }
        assert identifiers[..i + 1][..i] == identifiers[..i];
      }
      assert identifiers[..|identifiers|] == identifiers;
    }

    /** Adds a contributor statement and a person type for each contributor in turn. */
    method AddContributors(contributors: seq<Contributor>, subject: string)
      requires model.Some?
      modifies this`model
      ensures model.Some? && model.value == old(model.value) + ContributorsStmts(subject, contributors)
    {
      ghost var start := model.value;
      for i := 0 to |contributors|
        invariant model.Some? && model.value == start + ContributorsStmts(subject, contributors[..i])
      {
        var userIri := ContributorIri(contributors[i]);
        ContributorsSnoc(subject, contributors, i);
        model := Some(model.value + [Triple(Iri(subject), DctContributor, Iri(userIri))]);
        model := Some(model.value + [Triple(Iri(userIri), RdfType, Iri(FoafPerson))]);
        Append2(start, ContributorsStmts(subject, contributors[..i]), Triple(Iri(subject), DctContributor, Iri(userIri)),
                Triple(Iri(userIri), RdfType, Iri(FoafPerson)));
      }
      assert contributors[..|contributors|] == contributors;
    }

    /** Adds the fork statement when the fork reference is neither null nor empty. */
    method AddForkedFrom(forkRef: Option<string>, subject: string)
      requires model.Some?
      modifies this`model
      ensures model.Some? && model.value == old(model.value) + ForkedFromStmts(subject, forkRef)
    {
      if forkRef.Some? && |forkRef.value| > 0 {
        var forkedFromNodeId := LoaderUtils.ExtractLastSubFolder(forkRef);
        var forkIri := HarvestRecords.OsfPathPrefix
          + (if forkedFromNodeId.Some? then forkedFromNodeId.value else "null") + "/";
        model := Some(model.value + [Triple(Iri(subject), ProvWasDerivedFrom, Iri(forkIri))]);
      }
    }

    /** Adds a literal statement unless the value is null. */
    method AddLiteral(subject: string, p: string, value: Option<string>)
      requires model.Some?
      modifies this`model
      ensures model.Some? && model.value == old(model.value) + LiteralStmts(subject, p, value)
    {
      if value.Some? {
        model := Some(model.value + [Triple(Iri(subject), p, Literal(value.value))]);
      }
    }
  }

  /** The statements of one more contributor extend those of the contributors before it. */
  lemma ContributorsSnoc(subject: string, cs: seq<Contributor>, i: nat)
    requires i < |cs|
    ensures var iri := ContributorIri(cs[i]);
      ContributorsStmts(subject, cs[..i + 1])
        == ContributorsStmts(subject, cs[..i]) + [Triple(Iri(subject), DctContributor, Iri(iri))]
           + [Triple(Iri(iri), RdfType, Iri(FoafPerson))]
  {
    assert cs[..i + 1][..i] == cs[..i];
  }

  lemma Append2(a: seq<Stmt>, b: seq<Stmt>, x: Stmt, y: Stmt)
    ensures a + b + [x] + [y] == a + (b + [x] + [y])
  {
  }

  lemma Assoc(a: seq<Stmt>, b: seq<Stmt>, c: seq<Stmt>)
    ensures a + b + c == a + (b + c)
  {
  }

  /** The statements of one more child extend those of the children before it. */
  lemma ChildrenSnoc(rules: DoiRules, cs: seq<Node>, i: nat, parentIri: string)
    requires i < |cs|
    ensures ChildrenStmts(rules, cs[..i + 1], parentIri).Ok?
        <==> ChildrenStmts(rules, cs[..i], parentIri).Ok? && NodeStmts(rules, cs[i], Some(parentIri)).Ok?
    ensures ChildrenStmts(rules, cs[..i + 1], parentIri).Ok? ==>
      ChildrenStmts(rules, cs[..i + 1], parentIri).value
        == ChildrenStmts(rules, cs[..i], parentIri).value + NodeStmts(rules, cs[i], Some(parentIri)).value
  {
    assert cs[..i + 1][..i] == cs[..i];
    assert cs[..i + 1][i] == cs[i];
  }

  /** Once a prefix of the children fails, the whole list fails. */
  lemma {:induction false} ChildrenErrExtends(rules: DoiRules, cs: seq<Node>, i: nat, parentIri: string)
    requires i <= |cs| && ChildrenStmts(rules, cs[..i], parentIri).Err?
    ensures ChildrenStmts(rules, cs, parentIri).Err?
    decreases |cs| - i
  {
    if i < |cs| {
      assert cs[..i + 1][..i] == cs[..i];
      ChildrenErrExtends(rules, cs, i + 1, parentIri);
    } else {
      assert cs[..i] == cs;
    }
  }
}

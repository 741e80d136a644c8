/** `DiscoTransformerFactory`: which DiSCO transformer serves each kind of record. */
module TransformerFactory {
  import opened Wrappers
  import opened RecordTypes
  import NodeDisco = NodeTransformer

  datatype TransformerKind = NodeTransformer | RegistrationTransformer | UserTransformer

  /**
   * `createDiscoBuilder`: registrations and users have their own transformers; nodes and
   * every other kind get the node transformer, so there is always a transformer.
   */
  function CreateDiscoBuilder(t: RecordType): (k: TransformerKind)
    ensures k == RegistrationTransformer <==> t == OsfRegistration
    ensures k == UserTransformer <==> t == OsfUser
    ensures k == NodeTransformer <==> t == OsfNode || t.OsfUnlisted?
  {
    match t
    case OsfRegistration => RegistrationTransformer
    case OsfUser => UserTransformer
    case OsfNode => NodeTransformer
    case OsfUnlisted(_) => NodeTransformer
  }

  /**
   * The node transformer that `createDiscoBuilder` makes for nodes and unlisted kinds:
   * a new one, built with no record, so that a record must be set before a model.
   */
  method CreateNodeDiscoBuilder(agentNamespace: string, rules: NodeDisco.DoiRules) returns (tr: NodeDisco.OsfNodeDiscoTransformer)
    ensures fresh(tr)
    ensures tr.record.None? && tr.model.None? && tr.discoId.None?
    ensures tr.discoCreator == agentNamespace + NodeDisco.DefaultCreatorName && tr.discoDescription == NodeDisco.DefaultDescription
  {
    tr := new NodeDisco.OsfNodeDiscoTransformer.Default(agentNamespace, rules);
  }

  /** Asking the factory's transformer for a model before any record is set fails. */
  method ModelBeforeRecordFails(agentNamespace: string, rules: NodeDisco.DoiRules) returns (r: Result<seq<NodeDisco.Stmt>>)
    ensures r.Err?
  {
    var tr := CreateNodeDiscoBuilder(agentNamespace, rules);
    r := tr.GetModel();
  }
}

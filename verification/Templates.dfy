/** Templates and the keys of their records, as the assembly state and the materializer share them. */
module Templates {
  import opened Wrappers
  import opened Ast

  /** One record of a template: an extraction record with the surface it belongs to and the owner of its code. */
  datatype Record = Record(
    codeOwner: seq<string>, inventoryKind: string, astPath: string, resourceName: string, surfaceKey: string)

  datatype Template = Template(tree: Module, records: seq<Record>)

  datatype RecordKey = RecordKey(occurrence: nat, record: nat)

  /** The operations an edge may carry, one constructor for each key that the materializer handles. */
  datatype Operation =
    | ReplaceExpression
    | SpliceBodyAtMarker
    | SpliceParameters
    | SpliceCallArguments
    | AppendClause
    | OtherOperation(key: string)

  function OperationKey(op: Operation): string {
    match op
    case ReplaceExpression => "astichi.operation.replace_expression"
    case SpliceBodyAtMarker => "astichi.operation.splice_body_at_marker"
    case SpliceParameters => "astichi.operation.splice_parameters"
    case SpliceCallArguments => "astichi.operation.splice_call_arguments"
    case AppendClause => "astichi.operation.append_clause"
    case OtherOperation(key) => key
  }

  /** Operations that replace whole statements. */
  predicate SplicesStatements(op: Operation) {
    op == SpliceBodyAtMarker || op == AppendClause
  }

  /** The locator of the only record on a surface. */
  function UniqueLocator(records: seq<Record>, surfaceKey: string): Result<string> {
    if records == [] then Err(BadPayload)
    else if records[0].surfaceKey == surfaceKey then
      if forall r :: r in records[1..] ==> r.surfaceKey != surfaceKey then Ok(records[0].astPath) else Err(BadPayload)
    else UniqueLocator(records[1..], surfaceKey)
  }

  predicate StartsWith(text: string, prefix: string) {
    prefix <= text
  }

  /** The operation that fills a target of a given inventory kind. */
  function OperationForKind(inventoryKind: string): Operation {
    if inventoryKind == "hole.expr" then ReplaceExpression
    else if inventoryKind == "hole.block" then SpliceBodyAtMarker
    else if inventoryKind == "hole.params" then SpliceParameters
    else if inventoryKind == "hole.elif" then AppendClause
    else if StartsWith(inventoryKind, "hole.") then SpliceCallArguments
    else OtherOperation("astichi.operation.append_body")
  }
}

/** The rows of an assembly state (occurrence_store.rs), as values. */
module Assembly {
  import opened Templates
  import opened Wrappers

  datatype Occurrence = Occurrence(templateIndex: nat, buildPath: seq<string>, parent: Option<nat>, live: bool)

  /** The source occurrence fills the target record. */
  datatype Edge = Edge(target: RecordKey, source: nat, operation: Operation, order: int)

  datatype Overlay = Overlay(kind: string, sourceLabel: string, target: RecordKey)

  datatype State = State(
    occurrences: seq<Occurrence>, edges: seq<Edge>, overlays: seq<Overlay>, satisfied: set<RecordKey>, dead: set<RecordKey>)
}

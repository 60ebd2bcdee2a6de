/** Loaded YAML documents. Text syntax is not modelled: emitting and loading are taken as inverse. */
module Yaml {

  /** `Mapping` keys are what `Scalar()` gives for the key node. */
  datatype Node =
    | Null
    | Scalar(text: string)
    | Sequence(items: seq<Node>)
    | Mapping(entries: seq<Entry>)

  datatype Entry = Entry(key: string, value: Node)
}

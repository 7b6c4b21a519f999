/** What inputs and outputs of revisions, operators and workflows have in common. */
module IOTypes {
  import opened Wrappers

  type Uuid = int
  type Name = int   // names are only compared, and checked by a given predicate
  type Value = int  // default values are only passed on

  datatype DataType = INT | FLOAT | STRING | DATAFRAME | SERIES | MULTITSFRAME | BOOLEAN | ANY | PLOTLYJSON

  datatype InputType = REQUIRED | OPTIONAL

  datatype State = DRAFT | RELEASED | DISABLED

  datatype Position = Position(x: real, y: real)

  const ORIGIN: Position := Position(0.0, 0.0)

  /** What inputs have beyond outputs. Outputs are never optional. */
  datatype Slot = Input(inputType: InputType, value: Option<Value>) | Output

  function KindOf(s: Slot): InputType {
    match s case Input(t, _) => t case Output => REQUIRED
  }

  /** An input or output of a revision, as in its io interface. */
  datatype Endpoint = Endpoint(id: Uuid, name: Option<Name>, dataType: DataType, slot: Slot)

  datatype Trafo = Trafo(id: Uuid, revisionGroupId: Uuid, isWorkflow: bool, state: State, versionTag: int, inputs: seq<Endpoint>, outputs: seq<Endpoint>)

  /** An entry of a workflow's content: a workflow input or output and the connector behind it. */
  datatype Content = Content(id: Uuid, name: Option<Name>, dataType: DataType, slot: Slot, operatorId: Uuid, connectorId: Uuid, connectorName: Option<Name>, position: Position)

  datatype Constant = Constant(id: Uuid, dataType: DataType, operatorId: Uuid, connectorId: Uuid, connectorName: Option<Name>, value: string)

  /** One end of a link: a connector of an operator or, without operator, of the workflow itself. */
  datatype Vertex = Vertex(operator: Option<Uuid>, connectorId: Uuid, connectorName: Option<Name>, dataType: DataType)
}

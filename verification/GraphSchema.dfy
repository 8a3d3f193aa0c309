// Nodes and edges of the heterogeneous graph.
// Source: ml-service/graphsage/schema.py

module GraphSchema {
  type Id = string
  type Time = int

  datatype NodeType = Employee | Consumer | Account | Device | Ip | PaymentToken
                    | Transaction | Merchant | Case | Session

  datatype Node = Node(id: Id, kind: NodeType, createdAt: Time)

  // `detail` stands for the attributes that no code here reads (weight, provenance, ...);
  // it takes part in equality, as it does in the original.
  datatype Edge = Edge(id: Id, source: Id, target: Id, kind: string, timestamp: Time, detail: string)
}

/** Edges of an agent graph. */
module GraphEdges {
  datatype Endpoint = Endpoint(node: string, port: string)

  datatype Edge = Edge(from: Endpoint, to: Endpoint)
}

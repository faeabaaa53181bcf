/** What the harness graph records about a file, and about two files that fail together. */
module Harness {
  import opened Options

  datatype HarnessNode = HarnessNode(id: string, path: string, coverage: Option<string>,
                                     cluster: Option<string>, flakiness: Option<real>)

  datatype CofailEdge = CofailEdge(from: string, to: string, fromPath: string, toPath: string,
                                   jointFailures: nat, ppmi: real, flakinessDampened: bool)

  datatype DirectEdge = DirectEdge(from: string, to: string)
  datatype ComodEdge = ComodEdge(from: string, to: string, ppmi: real)
  datatype CovEdge = CovEdge(from: string, to: string, jaccard: real)

  /** The four edge tables. */
  datatype HarnessEdges = HarnessEdges(edges: seq<DirectEdge>, comod: seq<ComodEdge>,
                                       cov: seq<CovEdge>, cofail: seq<CofailEdge>)

  class HarnessGraph {
    var nodes: seq<HarnessNode>
    var edges: seq<DirectEdge>
    var comod: seq<ComodEdge>
    var cov: seq<CovEdge>
    var cofail: seq<CofailEdge>

    function Tables(): HarnessEdges
      reads this
    {
      HarnessEdges(edges, comod, cov, cofail)
    }
  }
}

/**
 * The vocabulary of the airport graph (src/Layout/Layout.py): node ids,
 * directed edge keys whose ends may be open, node and edge types, the ICAO
 * wingspan categories and the wingspan limit of an edge.
 */
module Graph {
  import opened Wrappers

  /** Node ids are the intersection index, or the termination index shifted by the intersection count. */
  type NodeId = nat

  /** An edge key `(start, end)`; `None` stands for an open end of the drawing. */
  datatype EdgeKey = EdgeKey(u: Option<NodeId>, v: Option<NodeId>)
  {
    /** The key of the same path walked the other way. */
    function Rev(): (r: EdgeKey)
      ensures r.u == v && r.v == u
    {
      EdgeKey(v, u)
    }

    /** Both ends are nodes of the graph. */
    predicate Closed()
    {
      u.Some? && v.Some?
    }
  }

  /** A key between two nodes. */
  function Key(a: NodeId, b: NodeId): (k: EdgeKey)
    ensures k.Closed() && k.u == Some(a) && k.v == Some(b)
  {
    EdgeKey(Some(a), Some(b))
  }

  datatype NodeType =
    | TwyIntersection
    | SrIntersection
    | RwyIntersection
    | TerminationNode
    | Stopbar
    | Ramp
    | RemoteHolding
    | TetBase
    | DecouplingPoint
    | AllClearPoint
    | Transfer
    | Deicing
    | Tugs

  datatype EdgeType =
    | TwyEdge
    | ServiceRoad
    | CenterServiceRoad
    | Stand
    | PushPullPlaceholder
    | EntryPlaceholder
    | RwyEdge
  {
    /** The type's name contains `ServiceRoad`. */
    predicate IsServiceRoad()
    {
      this == ServiceRoad || this == CenterServiceRoad
    }
  }

  /** The wingspan categories of push and pull paths, in the order the source lists them. */
  datatype Category = Standard | IcaoA | IcaoB | IcaoC | IcaoD | IcaoE | IcaoF

  /** `Standard`, then ICAO-A to ICAO-F. */
  const AllCategories: seq<Category> := [Standard, IcaoA, IcaoB, IcaoC, IcaoD, IcaoE, IcaoF]

  /** ICAO-A to ICAO-F. */
  const IcaoCategories: seq<Category> := [IcaoA, IcaoB, IcaoC, IcaoD, IcaoE, IcaoF]

  /** A maximal wingspan: unlimited (`math.inf`) or a whole number of metres. */
  datatype Span = Unlimited | AtMost(metres: nat)

  /** The only member of a one-element set. */
  lemma OnlyMember(s: set<EdgeKey>, x: EdgeKey, y: EdgeKey)
    requires |s| == 1 && x in s && y in s
    ensures x == y
  {
    var t := s - {x};
    assert s == t + {x};
    assert |t| == 0;
    assert t == {};
  }
}

/** Notions several components share. */
module Common {
  datatype Option<+T> = None | Some(value: T)

  type NodeId = string
  type DaemonId = string

  function Without<T>(xs: seq<T>, i: nat): seq<T>
    requires i < |xs|
  {
    xs[..i] + xs[i + 1..]
  }

  function Members(nodes: seq<NodeId>): set<NodeId> {
    set n | n in nodes
  }

  lemma MembersGrow(nodes: seq<NodeId>, i: nat)
    requires i < |nodes|
    ensures Members(nodes[..i + 1]) == Members(nodes[..i]) + {nodes[i]}
  {
  }
}

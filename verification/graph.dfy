/** The dual graph the chain walks on, as far as the statistics see it. */
module DualGraph {
  /** An edge of the dual graph, as a pair of node identifiers. */
  type Edge = (nat, nat)
}

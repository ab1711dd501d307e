/** What several components take from the wire format: a transaction output is named by its outpoint. */
module Wire {
  type Hash = nat

  datatype OutPoint = OutPoint(hash: Hash, index: nat)
}

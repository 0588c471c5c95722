/** What both loaders demand of the config they return. */
module Acceptance {
  import opened Seqs
  import opened Blocks
  import opened Duplicates
  import opened IngressChecks

  /** The duplicate check and the ingress check both pass. */
  ghost predicate Accepted(c: Config)
  {
    NoDup(AllKeys(ClaimGroups(c))) && NoConflict(Slots(c))
  }
}

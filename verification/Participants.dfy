/** participant_t: a process named by namespace and rank, or all ranks of a namespace. */
module Participants {
  import opened CStrings

  /** PMIX_RANK_WILDCARD */
  const WILDCARD: nat := 0xffff_fffe
  const TEST_NAMESPACE: string := "smoky_nspace"

  datatype Participant = Participant(nspace: string, rank: nat)

  predicate IsWild(v: Participant) {
    v.rank == WILDCARD
  }

  function NspaceName(id: int): string {
    TEST_NAMESPACE + "-" + Signed(id)
  }

  /** An int stored in a pmix_rank_t. */
  function ToRank(v: int): nat {
    v % 0x1_0000_0000
  }
}

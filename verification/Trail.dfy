// One ordered record of what a run does to a cluster: the milestones it passes and the work its
// helper pods do on instance volumes.
module Trail {
  import opened RecoveryProof

  /** Captures, clears and rebuilds are recorded when attempted, the other milestones once known to
      be done. Work and Finished are recorded when a helper does them, whoever is looking. */
  datatype Event =
    | Captured(pvcs: seq<string>)
    | Verified(pvcs: seq<string>)
    | Persisted(proof: Proof)
    | Clear(pod: string)
    | Rebuild(pod: string, livePrimary: string, source: string)
    | Work(target: string, fenced: seq<string>, reconcileOff: bool, held: bool)
    | Finished(target: string)

  /** Something a helper did. */
  predicate IsEffect(e: Event) {
    e.Work? || e.Finished?
  }
}

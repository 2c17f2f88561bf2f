/** The values the pipeline's actors exchange. */
module Windows {
  import opened ByteCodec

  /** Where a window starts or ends: a beacon slot, the store hash there and the queue cursor there. */
  datatype Start = Start(slot: U64, storeHash: B256, cursor: nat)

  /** Prepared proof inputs, seen as the transition they are expected to prove. */
  datatype ProofWindow = ProofWindow(input: Start, output: Start)

  /** Inputs for the current window and, when a job is staged, for the window after it. */
  datatype Dual = Dual(current: ProofWindow, next: Option<ProofWindow>)
}

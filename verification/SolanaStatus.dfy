/** How the answers of the Solana node become transaction statuses (solana/minter.go). */
module SolanaStatus {
  import opened Common

  type ProgramId = nat

  /** What GetTransaction answers for one id at finalized commitment. */
  datatype NodeAnswer =
    | Unknown
    | Failure
    | Undecodable
    | Finalized(programs: seq<Option<ProgramId>>, meta: Option<bool>, blockTime: Option<Time>)  // meta: did it fail?

  datatype Status = Status(confirmed: bool, mintSuccessful: bool, confirmationTime: Option<Time>)

  function StatusOf(answer: NodeAnswer, minter: ProgramId): (r: Result<Status>)
    ensures r.Ok? && r.value.mintSuccessful ==> r.value.confirmed && r.value.confirmationTime.Some?
  {
    match answer
    case Unknown => Ok(Status(false, false, None))
    case Failure => Err(StorageFailure)
    case Undecodable => Err(StorageFailure)
    case Finalized(programs, meta, blockTime) =>
      if |programs| != 1 then Ok(Status(false, false, None))
      else if programs[0].None? then Err(StorageFailure)
      else if programs[0].value != minter then Ok(Status(false, false, None))
      else if meta.None? then Err(StorageFailure)
      else if meta.value then Ok(Status(true, false, None))
      else if blockTime.None? then Err(StorageFailure)
      else Ok(Status(true, true, blockTime))
  }

  /** The transaction minted: finalized without error, and nothing but a call of the minter. */
  predicate MintedBy(answer: NodeAnswer, minter: ProgramId) {
    answer.Finalized? && answer.programs == [Some(minter)] && answer.meta == Some(false) && answer.blockTime.Some?
  }

  /** All statuses or an error: one id without an answer hides the others. Recovery and mint act on
      "confirmed and successful", which holds of exactly the transactions that minted. */
  method TxStatus(answers: seq<NodeAnswer>, minter: ProgramId) returns (r: Result<seq<Status>>)
    ensures r.Ok? <==> forall k :: 0 <= k < |answers| ==> StatusOf(answers[k], minter).Ok?
    ensures r.Ok? ==> |r.value| == |answers| && forall k :: 0 <= k < |answers| ==>
              (r.value[k].confirmed && r.value[k].mintSuccessful <==> MintedBy(answers[k], minter))
    ensures r.Ok? ==> forall k :: 0 <= k < |answers| && MintedBy(answers[k], minter) ==>
              r.value[k].confirmationTime == answers[k].blockTime
  {
    var statuses: seq<Status> := [];
    for i := 0 to |answers|
      invariant |statuses| == i
      invariant forall k :: 0 <= k < i ==> StatusOf(answers[k], minter) == Ok(statuses[k])
    {
      var s := StatusOf(answers[i], minter);
      if s.Err? {
        return Err(s.error);
      }
      statuses := statuses + [s.value];
    }
    return Ok(statuses);
  }
}

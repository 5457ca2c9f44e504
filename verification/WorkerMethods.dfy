/**
 A worker filling in one batch: the lanes beyond the live requests repeat
 request 0, and only the live requests are answered.
 */
module WorkerMethods {
  import opened DeadlineSpec
  import opened DeadlineMethods

  /** The live requests and the padding request are there and usable. */
  ghost predicate IsBatch(reqs: seq<Request?>, total: nat) {
    |reqs| == 8 && total <= 8 && reqs[0] != null && reqs[0].Usable()
    && forall i | 0 <= i < total :: reqs[i] != null && reqs[i].Usable()
  }

  /** Go: processReqs, with lanes 8 for AVX2 and 4 for SSE4; answers are the values sent on the requests' channels. */
  method ProcessReqs(reqs: seq<Request?>, total: nat, lanes: nat) returns (answers: seq<nat>)
    requires IsBatch(reqs, total) && total <= lanes <= 8
    modifies set r: Request | r in reqs
    ensures |answers| == total
    ensures forall i | 0 <= i < total ::
              answers[i]
                == Deadline(reqs[i].accountId, reqs[i].nonce, reqs[i].genSig, reqs[i].scoopNr, reqs[i].baseTarget)
  {
    hide Deadline;
    var dummy: Request := reqs[0];
    var creqs := new Request[8](_ => dummy);
    for i := 0 to total
      invariant forall k | 0 <= k < i :: creqs[k] == reqs[k]
    {
      creqs[i] := reqs[i];
    }
    for i := total to 8
      invariant forall k | 0 <= k < total :: creqs[k] == reqs[k]
      invariant forall k | total <= k < i :: creqs[k] == reqs[0]
    {
      creqs[i] := reqs[0];
    }
    assert forall k | 0 <= k < lanes :: creqs[..lanes][k] in reqs;
    CalculateDeadlines(creqs[..lanes]);
    answers := [];
    for i := 0 to total
      invariant |answers| == i
      invariant forall k | 0 <= k < i ::
                  answers[k]
                    == Deadline(reqs[k].accountId, reqs[k].nonce, reqs[k].genSig, reqs[k].scoopNr, reqs[k].baseTarget)
    {
      assert creqs[..lanes][i].Answered();
      answers := answers + [reqs[i].deadline];
    }
  }
}

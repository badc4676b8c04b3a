/** The verdict a gateway answer carries (internal/gateway/gateway.go, internal/daemon/server.go). */
module Freshness {

  datatype Verdict = Fresh | Updating | Stale | Unknown

  datatype ChangeState = ChangeState(watching: bool, pending: nat, indexing: bool, gapReason: string)

  datatype ChangeInfo = ChangeInfo(watching: bool, pending: nat, indexing: bool, complete: bool, gapReason: string)

  datatype Described = NoBlock(verdict: Verdict) | Block(info: ChangeInfo, verdict: Verdict)

  function DescribeChanges(state: ChangeState, watching: bool, serviceIndexing: bool): (d: Described)
  {
    var indexing := serviceIndexing || state.indexing;
    if !watching then NoBlock(if indexing then Updating else Unknown)
    else
      var info := ChangeInfo(state.watching, state.pending, indexing, state.gapReason == "", state.gapReason);
      Block(info,
            if indexing then Updating
            else if !info.complete then Stale
            else if state.pending > 0 then Stale
            else Fresh)
  }

  /** Freshness is only claimed with evidence: watched, nothing running, no gap, nothing pending. */
  lemma FreshNeedsEvidence(state: ChangeState, watching: bool, serviceIndexing: bool)
    ensures DescribeChanges(state, watching, serviceIndexing).verdict == Fresh <==>
              watching && !serviceIndexing && !state.indexing && state.gapReason == "" && state.pending == 0
  {
  }

  /** Each of the other verdicts, exactly; with FreshNeedsEvidence the four conditions cover every state. */
  lemma VerdictsAreExact(state: ChangeState, watching: bool, serviceIndexing: bool)
    ensures var v := DescribeChanges(state, watching, serviceIndexing).verdict;
            && (v == Updating <==> serviceIndexing || state.indexing)
            && (v == Stale <==> watching && !serviceIndexing && !state.indexing && (state.gapReason != "" || state.pending > 0))
            && (v == Unknown <==> !watching && !serviceIndexing && !state.indexing)
  {
  }

  /** What an answer carries beside the verdict: nothing unless watched, else the view and whether it is complete. */
  lemma BlockTellsTheView(state: ChangeState, watching: bool, serviceIndexing: bool)
    ensures var d := DescribeChanges(state, watching, serviceIndexing);
            && (d.Block? <==> watching)
            && (d.Block? ==>
                 && d.info.watching == state.watching && d.info.pending == state.pending
                 && (d.info.indexing <==> serviceIndexing || state.indexing)
                 && (d.info.complete <==> d.info.gapReason == "") && d.info.gapReason == state.gapReason)
  {
  }
}

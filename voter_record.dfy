/**
 * The records of the voter service and the search a voter offers on its own history
 * (voter-api/db/voter.go; the same records are declared in voter-container/db/voter.go and
 * voter-container/db/voter_history.go).
 */
module VoterRecord {
  import opened Wrappers

  /** Go's `uint`, 64 bits wide on the platforms the service is built for. */
  type Uint = n: nat | n < 0x1_0000_0000_0000_0000

  /** A `time.Time`. No operation of the stores looks inside it, so it stays opaque. */
  datatype VoteDate = VoteDate(instant: int)

  /** Go's zero `time.Time`. */
  const ZeroDate := VoteDate(0)

  /** One vote cast in one poll (`VoterHistory`: poll_id, vote_id, vote_date). */
  datatype VoterHistory = VoterHistory(pollId: Uint, voteId: Uint, voteDate: VoteDate)

  /** A voter (`Voter`: id, name, email, history), with its history in insertion order. */
  datatype Voter = Voter(voterId: Uint, name: string, email: string, voteHistory: seq<VoterHistory>)

  /** `VoterHistory{}`, returned beside every error. */
  const ZeroHistory := VoterHistory(0, 0, ZeroDate)

  /** `Voter{}`, returned beside every error. */
  const ZeroVoter := Voter(0, "", "", [])

  /** The one error of the record-level search. */
  datatype LookupError = PollNotInHistory {
    function Message(): string { "poll not found in voter history" }
  }

  /**
   * The invariant the service intends for every history: no two entries share a poll id.
   * Neither store checks it when a whole voter is stored, so it is stated on its own.
   */
  ghost predicate DistinctPollIds(h: seq<VoterHistory>) {
    forall i, j :: 0 <= i < j < |h| ==> h[i].pollId != h[j].pollId
  }

  /** The position of the first entry of `h` recorded for poll `pollId`, if there is one. */
  function FirstMatch(h: seq<VoterHistory>, pollId: Uint): (r: Option<nat>)
    ensures r.Some? ==> r.value < |h| && h[r.value].pollId == pollId
    ensures r.Some? ==> forall j :: 0 <= j < r.value ==> h[j].pollId != pollId
    ensures r.None? <==> forall j :: 0 <= j < |h| ==> h[j].pollId != pollId
  {
    if h == [] then None
    else if h[0].pollId == pollId then Some(0)
    else match FirstMatch(h[1..], pollId)
      case None => None
      case Some(k) => Some(k + 1)
  }

  /**
   * `Voter.GetHistoryByPollId`: the first entry of the voter's history for the poll, or the
   * zero entry and "poll not found in voter history". It reads the voter and changes nothing.
   */
  function GetHistoryByPollId(v: Voter, pollId: Uint): (r: (VoterHistory, Option<LookupError>))
    ensures r.1.None? <==> exists i :: 0 <= i < |v.voteHistory| && v.voteHistory[i].pollId == pollId
    ensures r.1.None? ==> r.0.pollId == pollId
    ensures r.1.None? ==> exists i :: 0 <= i < |v.voteHistory| && v.voteHistory[i] == r.0
                                        && forall j :: 0 <= j < i ==> v.voteHistory[j].pollId != pollId
    ensures r.1.Some? ==> r == (ZeroHistory, Some(PollNotInHistory))
  {
    match FirstMatch(v.voteHistory, pollId)
    case Some(i) => (v.voteHistory[i], None)
    case None => (ZeroHistory, Some(PollNotInHistory))
  }
}

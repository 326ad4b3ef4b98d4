/**
 * The in-memory voter store (voter-api/db/voter_list.go): a `VoterList` object owning a map
 * from voter id to voter, with existence-checked voter operations and first-match history
 * operations by poll id.
 */
module MemoryStore {
  import opened Wrappers
  import opened VoterRecord
  import HistoryEdits
  import opened Listings

  /** The errors `VoterList` returns, with their texts. */
  datatype Error = VoterAlreadyExists | VoterDoesNotExist | PollNotFound | HistoryExistsForPoll {
    function Message(): string {
      match this
      case VoterAlreadyExists => "voter already exists"
      case VoterDoesNotExist => "voter does not exist"
      case PollNotFound => "poll not found in voter history"
      case HistoryExistsForPoll => "voter history already exists for that poll"
    }
  }

  /** A listing of a map whose every voter sits under its own id is also a listing by id. */
  lemma ListingByIds(m: map<Uint, Voter>, order: seq<Uint>, all: seq<Voter>)
    requires IsListing(m, order, all)
    requires forall id :: id in m ==> m[id].voterId == id
    ensures forall i :: 0 <= i < |all| ==> all[i].voterId in m && m[all[i].voterId] == all[i]
    ensures forall i, j :: 0 <= i < j < |all| ==> all[i].voterId != all[j].voterId
  {
    forall i | 0 <= i < |all| ensures all[i].voterId == order[i] {
      assert m[order[i]] == all[i];
    }
  }

  class VoterList {
    /** `Voters`: voter id to voter. */
    var voters: map<Uint, Voter>

    /** Every voter is stored under its own id: each write uses the id of the record it stores. */
    ghost predicate Valid()
      reads this
    {
      forall id :: id in voters ==> voters[id].voterId == id
    }

    /** Every stored history has distinct poll ids. */
    ghost predicate HistoriesDistinct()
      reads this
    {
      forall id :: id in voters ==> DistinctPollIds(voters[id].voteHistory)
    }

    /** `New`: an empty store. */
    constructor ()
      ensures voters == map[]
      ensures Valid() && HistoriesDistinct()
    {
      voters := map[];
    }

    /** `AddVoter`: refuses an id already present, otherwise stores the record under its id. */
    method AddVoter(item: Voter) returns (err: Option<Error>)
      modifies this
      ensures item.voterId in old(voters) ==> err == Some(VoterAlreadyExists) && voters == old(voters)
      ensures item.voterId !in old(voters) ==> err.None? && voters == old(voters)[item.voterId := item]
      ensures old(Valid()) ==> Valid()
      ensures old(HistoriesDistinct()) && DistinctPollIds(item.voteHistory) ==> HistoriesDistinct()
    {
      if item.voterId in voters {
        return Some(VoterAlreadyExists);
      }
      voters := voters[item.voterId := item];
      return None;
    }

    /** `DeleteVoter`: removes the id if present and never fails, so a second delete is harmless. */
    method DeleteVoter(id: Uint) returns (err: Option<Error>)
      modifies this
      ensures err.None? && voters == old(voters) - {id}
      ensures old(Valid()) ==> Valid()
      ensures old(HistoriesDistinct()) ==> HistoriesDistinct()
    {
      voters := voters - {id};
      return None;
    }

    /** `DeleteAll`: the store is left empty. */
    method DeleteAll() returns (err: Option<Error>)
      modifies this
      ensures err.None? && voters == map[]
      ensures Valid() && HistoriesDistinct()
    {
      voters := map[];
      return None;
    }

    /** `UpdateVoter`: refuses an absent id, otherwise replaces the whole record, history included. */
    method UpdateVoter(item: Voter) returns (err: Option<Error>)
      modifies this
      ensures item.voterId !in old(voters) ==> err == Some(VoterDoesNotExist) && voters == old(voters)
      ensures item.voterId in old(voters) ==> err.None? && voters == old(voters)[item.voterId := item]
      ensures old(Valid()) ==> Valid()
      ensures old(HistoriesDistinct()) && DistinctPollIds(item.voteHistory) ==> HistoriesDistinct()
    {
      if item.voterId !in voters {
        return Some(VoterDoesNotExist);
      }
      voters := voters[item.voterId := item];
      return None;
    }

    /**
     * `GetHistoryByPollId`: the first entry of the voter's history for the poll, which is what
     * the voter's own `GetHistoryByPollId` returns.
     */
    method GetHistoryByPollId(userId: Uint, pollId: Uint) returns (e: VoterHistory, err: Option<Error>)
      ensures userId !in voters ==> err == Some(VoterDoesNotExist) && e == ZeroHistory
      ensures userId in voters ==>
        var h := voters[userId].voteHistory;
        && (FirstMatch(h, pollId).None? ==> err == Some(PollNotFound) && e == ZeroHistory)
        && (FirstMatch(h, pollId).Some? ==> err.None? && e == h[FirstMatch(h, pollId).value])
      ensures userId in voters ==>
        var found := VoterRecord.GetHistoryByPollId(voters[userId], pollId);
        e == found.0 && (err.None? <==> found.1.None?)
    {
      if userId !in voters {
        return ZeroHistory, Some(VoterDoesNotExist);
      }
      var h := voters[userId].voteHistory;
      for i := 0 to |h|
        invariant forall j :: 0 <= j < i ==> h[j].pollId != pollId
      {
        if h[i].pollId == pollId {
          return h[i], None;
        }
      }
      return ZeroHistory, Some(PollNotFound);
    }

    /**
     * `AddHistoryByPollId`: refuses an absent voter and a poll the history already holds;
     * otherwise appends the entry at the end of that voter's history and returns it.
     */
    method AddHistoryByPollId(userId: Uint, pollId: Uint, newHistory: VoterHistory)
      returns (e: VoterHistory, err: Option<Error>)
      modifies this
      ensures userId !in old(voters) ==>
        err == Some(VoterDoesNotExist) && e == ZeroHistory && voters == old(voters)
      ensures userId in old(voters) && FirstMatch(old(voters[userId].voteHistory), pollId).Some? ==>
        err == Some(HistoryExistsForPoll) && e == ZeroHistory && voters == old(voters)
      ensures userId in old(voters) && FirstMatch(old(voters[userId].voteHistory), pollId).None? ==>
        && err.None? && e == newHistory
        && voters == old(voters)[userId := old(voters[userId]).(voteHistory := old(voters[userId].voteHistory) + [newHistory])]
      ensures old(Valid()) ==> Valid()
      ensures old(HistoriesDistinct()) && newHistory.pollId == pollId ==> HistoriesDistinct()
    {
      if userId !in voters {
        return ZeroHistory, Some(VoterDoesNotExist);
      }
      var v := voters[userId];
      for i := 0 to |v.voteHistory|
        invariant forall j :: 0 <= j < i ==> v.voteHistory[j].pollId != pollId
      {
        if v.voteHistory[i].pollId == pollId {
          return ZeroHistory, Some(HistoryExistsForPoll);
        }
      }
      if newHistory.pollId == pollId && DistinctPollIds(v.voteHistory) {
        HistoryEdits.AppendKeepsDistinct(v.voteHistory, newHistory);
      }
      v := v.(voteHistory := v.voteHistory + [newHistory]);
      voters := voters[userId := v];
      return newHistory, None;
    }

    /**
     * `UpdateHistoryByPollId`: refuses an absent voter and a poll the history does not hold;
     * otherwise overwrites the first entry for the poll, in place, and returns the new entry.
     */
    method UpdateHistoryByPollId(userId: Uint, pollId: Uint, newHistory: VoterHistory)
      returns (e: VoterHistory, err: Option<Error>)
      modifies this
      ensures userId !in old(voters) ==>
        err == Some(VoterDoesNotExist) && e == ZeroHistory && voters == old(voters)
      ensures userId in old(voters) && FirstMatch(old(voters[userId].voteHistory), pollId).None? ==>
        err == Some(PollNotFound) && e == ZeroHistory && voters == old(voters)
      ensures userId in old(voters) && FirstMatch(old(voters[userId].voteHistory), pollId).Some? ==>
        var i := FirstMatch(old(voters[userId].voteHistory), pollId).value;
        && err.None? && e == newHistory
        && voters == old(voters)[userId := old(voters[userId]).(voteHistory := old(voters[userId].voteHistory)[i := newHistory])]
      ensures old(Valid()) ==> Valid()
      ensures old(HistoriesDistinct()) && newHistory.pollId == pollId ==> HistoriesDistinct()
    {
      if userId !in voters {
        return ZeroHistory, Some(VoterDoesNotExist);
      }
      var v := voters[userId];
      for i := 0 to |v.voteHistory|
        invariant forall j :: 0 <= j < i ==> v.voteHistory[j].pollId != pollId
      {
        if v.voteHistory[i].pollId == pollId {
          if newHistory.pollId == pollId && DistinctPollIds(v.voteHistory) {
            HistoryEdits.ReplaceKeepsDistinct(v.voteHistory, i, newHistory);
          }
          voters := voters[userId := v.(voteHistory := v.voteHistory[i := newHistory])];
          return newHistory, None;
        }
      }
      return ZeroHistory, Some(PollNotFound);
    }

    /**
     * `DeleteHistoryByPollId`: refuses an absent voter and a poll the history does not hold;
     * otherwise splices out the first entry for the poll, keeping the others in order.
     */
    method DeleteHistoryByPollId(userId: Uint, pollId: Uint) returns (err: Option<Error>)
      modifies this
      ensures userId !in old(voters) ==> err == Some(VoterDoesNotExist) && voters == old(voters)
      ensures userId in old(voters) && FirstMatch(old(voters[userId].voteHistory), pollId).None? ==>
        err == Some(PollNotFound) && voters == old(voters)
      ensures userId in old(voters) && FirstMatch(old(voters[userId].voteHistory), pollId).Some? ==>
        var h, i := old(voters[userId].voteHistory), FirstMatch(old(voters[userId].voteHistory), pollId).value;
        && err.None?
        && voters == old(voters)[userId := old(voters[userId]).(voteHistory := h[..i] + h[i + 1..])]
      ensures old(Valid()) ==> Valid()
      ensures old(HistoriesDistinct()) ==> HistoriesDistinct()
    {
      if userId !in voters {
        return Some(VoterDoesNotExist);
      }
      var v := voters[userId];
      for i := 0 to |v.voteHistory|
        invariant forall j :: 0 <= j < i ==> v.voteHistory[j].pollId != pollId
      {
        if v.voteHistory[i].pollId == pollId {
          if DistinctPollIds(v.voteHistory) {
            HistoryEdits.RemoveKeepsDistinct(v.voteHistory, i);
          }
          v := v.(voteHistory := v.voteHistory[..i] + v.voteHistory[i + 1..]);
          voters := voters[userId := v];
          return None;
        }
      }
      return Some(PollNotFound);
    }

    /** `GetVoter`: the stored record, or the zero voter and an error when the id is absent. */
    method GetVoter(id: Uint) returns (v: Voter, err: Option<Error>)
      ensures id in voters ==> err.None? && v == voters[id]
      ensures id !in voters ==> err == Some(VoterDoesNotExist) && v == ZeroVoter
    {
      if id !in voters {
        return ZeroVoter, Some(VoterDoesNotExist);
      }
      return voters[id], None;
    }

    /**
     * `GetAllVoters`: every stored voter exactly once, in the map's (unspecified) order; an
     * empty store gives an empty sequence.
     */
    method GetAllVoters() returns (all: seq<Voter>, err: Option<Error>)
      ensures err.None?
      ensures |all| == |voters|
      ensures forall id :: id in voters ==> voters[id] in all
      ensures forall i :: 0 <= i < |all| ==> all[i] in voters.Values
      ensures Valid() ==>
        forall i :: 0 <= i < |all| ==> all[i].voterId in voters && voters[all[i].voterId] == all[i]
      ensures Valid() ==> forall i, j :: 0 <= i < j < |all| ==> all[i].voterId != all[j].voterId
    {
      all := [];
      var remaining := voters.Keys;
      ghost var seen: set<Uint> := {};
      ghost var order: seq<Uint> := [];
      while remaining != {}
        invariant ListingProgress(voters, voters.Keys, remaining, seen, order, all)
        decreases remaining
      {
        var id :| id in remaining;
        ListingStep(voters, voters.Keys, remaining, seen, order, all, id);
        all := all + [voters[id]];
        order := order + [id];
        remaining := remaining - {id};
        seen := seen + {id};
      }
      ListingCovers(voters, voters.Keys, seen, order, all);
      if Valid() {
        ListingByIds(voters, order, all);
      }
      return all, None;
    }
  }
}

/**
 * The document-backed voter store (voter-container/db/voter_list.go): a `VoterDB` whose every
 * operation is a check against the document store followed by a write. The keyspace it works
 * on is a field here; a command is a function of the keyspace, and a write replaces it.
 */
module RedisStore {
  import opened Wrappers
  import opened VoterRecord
  import opened HistoryEdits
  import opened RedisJson
  import opened RedisKeys
  import opened Listings

  /** The errors `VoterDB` returns; those that wrap a command's error carry it. */
  datatype DbError =
    | VoterAlreadyExists
    | CheckingDuplicateVoter(cause: CommandError)
    | AddVoterFailed(cause: CommandError)
    | VoterNotFound
    | VoterDoesNotExist
    | UpdatingVoter(cause: CommandError)
    | GetHistoryFailed(cause: CommandError)
    | UnmarshalingHistory
    | PollNotFound
    | HistoryAlreadyExists
    | AddingHistory(cause: CommandError)
    | HistoryDoesNotExist
    | UpdatingHistory(cause: CommandError)
    | DeletingHistory(cause: CommandError)
    | GetVoterFailed(cause: CommandError)
    | UnmarshalingVoter
    | GettingAllVoters(key: string, inner: DbError)
  {
    function Message(): string {
      match this
      case VoterAlreadyExists => "voter already exists"
      case CheckingDuplicateVoter(c) => "checking duplicate voter: " + c.Message()
      case AddVoterFailed(c) => "add voter: " + c.Message()
      case VoterNotFound => "voter not found"
      case VoterDoesNotExist => "voter does not exist"
      case UpdatingVoter(c) => "updating voter: " + c.Message()
      case GetHistoryFailed(c) => "get history by poll id: " + c.Message()
      case UnmarshalingHistory => "unmarshaling vote history: unexpected end of JSON input"
      case PollNotFound => "poll not found in vote history"
      case HistoryAlreadyExists => "history already exists"
      case AddingHistory(c) => "adding history by poll id: " + c.Message()
      case HistoryDoesNotExist => "history does not exist"
      case UpdatingHistory(c) => "updating history by poll id: " + c.Message()
      case DeletingHistory(c) => "deleting history by poll id: " + c.Message()
      case GetVoterFailed(c) => "get voter by id: " + c.Message()
      case UnmarshalingVoter => "unmarshaling voter: unexpected end of JSON input"
      case GettingAllVoters(k, e) => "getting all voters (voter " + k + "): " + e.Message()
    }
  }

  /** A listing of a keyspace whose every document sits under its id's key is also a listing by id. */
  lemma ListingByIds(ks: Keyspace, order: seq<string>, all: seq<Voter>)
    requires IsListing(ks, order, all)
    requires forall k :: k in ks ==> k == IdKey(ks[k].voterId)
    ensures forall i :: 0 <= i < |all| ==> IdKey(all[i].voterId) in ks && ks[IdKey(all[i].voterId)] == all[i]
    ensures forall i, j :: 0 <= i < j < |all| ==> all[i].voterId != all[j].voterId
  {
    forall i | 0 <= i < |all| ensures IdKey(all[i].voterId) == order[i] {
      assert order[i] == IdKey(ks[order[i]].voterId);
    }
  }

  class VoterDB {
    /** The database the client is connected to. */
    var keyspace: Keyspace

    /** Every document is stored under the key of its own id: each write uses `voterKey` or `idKey` of that id. */
    ghost predicate Valid()
      reads this
    {
      forall k :: k in keyspace ==> k == IdKey(keyspace[k].voterId)
    }

    /** Every stored history has distinct poll ids. */
    ghost predicate HistoriesDistinct()
      reads this
    {
      forall k :: k in keyspace ==> DistinctPollIds(keyspace[k].voteHistory)
    }

    /** `New`: a store over the database as it is (the connection check is not modelled). */
    constructor (db: Keyspace)
      ensures keyspace == db
    {
      keyspace := db;
    }

    /** `fetchVoter`: the document at `key`; a missing key gives an empty reply that does not decode. */
    method FetchVoter(key: string) returns (v: Voter, err: Option<DbError>)
      ensures key in keyspace ==> err.None? && v == keyspace[key]
      ensures key !in keyspace ==> err == Some(UnmarshalingVoter) && v == ZeroVoter
    {
      match JsonGet(keyspace, key, RootPath)
      case Err(cause) =>
        return ZeroVoter, Some(GetVoterFailed(cause));
      case Ok(Documents(vs)) =>
        return vs[0], None;
      case Ok(_) =>
        return ZeroVoter, Some(UnmarshalingVoter);
    }

    /**
     * `fetchHistory`: the first entry the poll filter selects in the voter's document, which
     * is the entry the voter's own `GetHistoryByPollId` finds.
     */
    method FetchHistory(userId: Uint, pollId: Uint) returns (e: VoterHistory, err: Option<DbError>)
      ensures IdKey(userId) !in keyspace ==> err == Some(UnmarshalingHistory) && e == ZeroHistory
      ensures IdKey(userId) in keyspace ==>
        var matches := FilterByPoll(keyspace[IdKey(userId)].voteHistory, pollId);
        && (matches == [] ==> err == Some(PollNotFound) && e == ZeroHistory)
        && (matches != [] ==> err.None? && e == matches[0])
      ensures IdKey(userId) in keyspace ==>
        var found := VoterRecord.GetHistoryByPollId(keyspace[IdKey(userId)], pollId);
        e == found.0 && (err.None? <==> found.1.None?)
    {
      var key := IdKey(userId);
      if key in keyspace {
        FilterHeadIsFirstMatch(keyspace[key].voteHistory, pollId);
      }
      match JsonGet(keyspace, key, PollIdPath(pollId))
      case Err(cause) =>
        return ZeroHistory, Some(GetHistoryFailed(cause));
      case Ok(Entries(vh)) =>
        if |vh| <= 0 {
          return ZeroHistory, Some(PollNotFound);
        }
        return vh[0], None;
      case Ok(_) =>
        return ZeroHistory, Some(UnmarshalingHistory);
    }

    /** `AddVoter`: refuses a key that already holds a document, otherwise writes the whole record there. */
    method AddVoter(item: Voter) returns (err: Option<DbError>)
      modifies this
      ensures IdKey(item.voterId) in old(keyspace) ==> err == Some(VoterAlreadyExists) && keyspace == old(keyspace)
      ensures IdKey(item.voterId) !in old(keyspace) ==>
        err.None? && keyspace == old(keyspace)[IdKey(item.voterId) := item]
      ensures old(Valid()) ==> Valid()
      ensures old(HistoriesDistinct()) && DistinctPollIds(item.voteHistory) ==> HistoriesDistinct()
    {
      var key := VoterKey(item);
      match JsonGet(keyspace, key, RootPath) {
        case Ok(NilReply) =>
        case Ok(_) =>
          return Some(VoterAlreadyExists);
        case Err(cause) =>
          return Some(CheckingDuplicateVoter(cause));
      }
      match JsonSetDocument(keyspace, key, RootPath, item)
      case Err(cause) =>
        return Some(AddVoterFailed(cause));
      case Ok(stored) =>
        keyspace := stored;
        return None;
    }

    /** `DeleteVoter`: refuses an id with no document, otherwise deletes its key. */
    method DeleteVoter(id: Uint) returns (err: Option<DbError>)
      modifies this
      ensures IdKey(id) !in old(keyspace) ==> err == Some(VoterNotFound) && keyspace == old(keyspace)
      ensures IdKey(id) in old(keyspace) ==> err.None? && keyspace == old(keyspace) - {IdKey(id)}
      ensures old(Valid()) ==> Valid()
      ensures old(HistoriesDistinct()) ==> HistoriesDistinct()
    {
      var key := IdKey(id);
      var _, fetchErr := FetchVoter(key);
      if fetchErr.Some? {
        return Some(VoterNotFound);
      }
      keyspace := Del(keyspace, key);
      return None;
    }

    /** `DeleteAll`: always succeeds and leaves the database empty. */
    method DeleteAll() returns (err: Option<DbError>)
      modifies this
      ensures err.None? && keyspace == map[]
      ensures Valid() && HistoriesDistinct()
    {
      keyspace := FlushDb(keyspace);
      return None;
    }

    /** `UpdateVoter`: refuses an id with no document, otherwise replaces the whole document. */
    method UpdateVoter(item: Voter) returns (err: Option<DbError>)
      modifies this
      ensures IdKey(item.voterId) !in old(keyspace) ==> err == Some(VoterDoesNotExist) && keyspace == old(keyspace)
      ensures IdKey(item.voterId) in old(keyspace) ==>
        err.None? && keyspace == old(keyspace)[IdKey(item.voterId) := item]
      ensures old(Valid()) ==> Valid()
      ensures old(HistoriesDistinct()) && DistinctPollIds(item.voteHistory) ==> HistoriesDistinct()
    {
      var key := VoterKey(item);
      var _, fetchErr := FetchVoter(key);
      if fetchErr.Some? {
        return Some(VoterDoesNotExist);
      }
      match JsonSetDocument(keyspace, key, RootPath, item)
      case Err(cause) =>
        return Some(UpdatingVoter(cause));
      case Ok(stored) =>
        keyspace := stored;
        return None;
    }

    /** `GetHistoryByPollId`: what `fetchHistory` finds. */
    method GetHistoryByPollId(userId: Uint, pollId: Uint) returns (e: VoterHistory, err: Option<DbError>)
      ensures IdKey(userId) !in keyspace ==> err == Some(UnmarshalingHistory) && e == ZeroHistory
      ensures IdKey(userId) in keyspace ==>
        var found := VoterRecord.GetHistoryByPollId(keyspace[IdKey(userId)], pollId);
        && e == found.0
        && (found.1.None? ==> err.None?)
        && (found.1.Some? ==> err == Some(PollNotFound))
    {
      e, err := FetchHistory(userId, pollId);
    }

    /**
     * `AddHistoryByPollId`: refuses when `fetchHistory` finds an entry for the poll; otherwise
     * appends to the history array, which fails when the voter has no document.
     */
    method AddHistoryByPollId(userId: Uint, pollId: Uint, newHistory: VoterHistory)
      returns (e: VoterHistory, err: Option<DbError>)
      modifies this
      ensures IdKey(userId) !in old(keyspace) ==>
        err == Some(AddingHistory(NoSuchKey)) && e == ZeroHistory && keyspace == old(keyspace)
      ensures IdKey(userId) in old(keyspace) && FilterByPoll(old(keyspace[IdKey(userId)].voteHistory), pollId) != [] ==>
        err == Some(HistoryAlreadyExists) && e == ZeroHistory && keyspace == old(keyspace)
      ensures IdKey(userId) in old(keyspace) && FilterByPoll(old(keyspace[IdKey(userId)].voteHistory), pollId) == [] ==>
        var k := IdKey(userId);
        && err.None? && e == newHistory
        && keyspace == old(keyspace)[k := old(keyspace[k]).(voteHistory := old(keyspace[k].voteHistory) + [newHistory])]
      ensures old(Valid()) ==> Valid()
      ensures old(HistoriesDistinct()) && newHistory.pollId == pollId ==> HistoriesDistinct()
    {
      var key := IdKey(userId);
      var _, fetchErr := FetchHistory(userId, pollId);
      if fetchErr.None? {
        return ZeroHistory, Some(HistoryAlreadyExists);
      }
      match JsonArrAppend(keyspace, key, HistoryPath, newHistory)
      case Err(cause) =>
        return ZeroHistory, Some(AddingHistory(cause));
      case Ok(appended) =>
        if newHistory.pollId == pollId && DistinctPollIds(keyspace[key].voteHistory) {
          FilterHeadIsFirstMatch(keyspace[key].voteHistory, pollId);
          AppendKeepsDistinct(keyspace[key].voteHistory, newHistory);
        }
        keyspace := appended;
        return newHistory, None;
    }

    /**
     * `UpdateHistoryByPollId`: refuses when `fetchHistory` fails; otherwise overwrites every
     * entry the poll filter selects and returns the new entry.
     */
    method UpdateHistoryByPollId(userId: Uint, pollId: Uint, newHistory: VoterHistory)
      returns (e: VoterHistory, err: Option<DbError>)
      modifies this
      ensures IdKey(userId) !in old(keyspace) || FilterByPoll(old(keyspace[IdKey(userId)].voteHistory), pollId) == [] ==>
        err == Some(HistoryDoesNotExist) && e == ZeroHistory && keyspace == old(keyspace)
      ensures IdKey(userId) in old(keyspace) && FilterByPoll(old(keyspace[IdKey(userId)].voteHistory), pollId) != [] ==>
        var k := IdKey(userId);
        && err.None? && e == newHistory
        && keyspace == old(keyspace)[k := old(keyspace[k]).(voteHistory := SetByPoll(old(keyspace[k].voteHistory), pollId, newHistory))]
      ensures old(Valid()) ==> Valid()
      ensures old(HistoriesDistinct()) && newHistory.pollId == pollId ==> HistoriesDistinct()
    {
      var key := IdKey(userId);
      var path := PollIdPath(pollId);
      var _, fetchErr := FetchHistory(userId, pollId);
      if fetchErr.Some? {
        return ZeroHistory, Some(HistoryDoesNotExist);
      }
      match JsonSetEntry(keyspace, key, path, newHistory)
      case Err(cause) =>
        return ZeroHistory, Some(UpdatingHistory(cause));
      case Ok(stored) =>
        if newHistory.pollId == pollId && DistinctPollIds(keyspace[key].voteHistory) {
          SetByPollKeepsDistinct(keyspace[key].voteHistory, newHistory);
        }
        keyspace := stored;
        return newHistory, None;
    }

    /**
     * `DeleteHistoryByPollId`: refuses when `fetchHistory` fails; otherwise deletes every
     * entry the poll filter selects.
     */
    method DeleteHistoryByPollId(userId: Uint, pollId: Uint) returns (err: Option<DbError>)
      modifies this
      ensures IdKey(userId) !in old(keyspace) || FilterByPoll(old(keyspace[IdKey(userId)].voteHistory), pollId) == [] ==>
        err == Some(HistoryDoesNotExist) && keyspace == old(keyspace)
      ensures IdKey(userId) in old(keyspace) && FilterByPoll(old(keyspace[IdKey(userId)].voteHistory), pollId) != [] ==>
        var k := IdKey(userId);
        && err.None?
        && keyspace == old(keyspace)[k := old(keyspace[k]).(voteHistory := DeleteByPoll(old(keyspace[k].voteHistory), pollId))]
      ensures old(Valid()) ==> Valid()
      ensures old(HistoriesDistinct()) ==> HistoriesDistinct()
    {
      var key := IdKey(userId);
      var path := PollIdPath(pollId);
      var _, fetchErr := FetchHistory(userId, pollId);
      if fetchErr.Some? {
        return Some(HistoryDoesNotExist);
      }
      match JsonDel(keyspace, key, path)
      case Err(cause) =>
        return Some(DeletingHistory(cause));
      case Ok(deleted) =>
        if DistinctPollIds(keyspace[key].voteHistory) {
          DeleteByPollKeepsDistinct(keyspace[key].voteHistory, pollId);
        }
        keyspace := deleted;
        return None;
    }

    /** In a valid database the voter pattern matches every key. */
    lemma ValidKeysMatchWildcard()
      requires Valid()
      ensures Keys(keyspace, WildcardKey()) == keyspace.Keys
    {
      forall k | k in keyspace ensures GlobMatch(WildcardKey(), k) {
        assert k == IdKey(keyspace[k].voterId);
      }
    }

    /** `GetVoter`: what `fetchVoter` finds at the id's key. */
    method GetVoter(id: Uint) returns (v: Voter, err: Option<DbError>)
      ensures IdKey(id) in keyspace ==> err.None? && v == keyspace[IdKey(id)]
      ensures IdKey(id) !in keyspace ==> err == Some(UnmarshalingVoter) && v == ZeroVoter
    {
      v, err := FetchVoter(IdKey(id));
    }

    /**
     * `GetAllVoters`: the document of every key KEYS returns for the voter pattern, each
     * exactly once, in the order KEYS gives (unspecified here). In a valid database that is
     * every stored voter, one per id.
     */
    method GetAllVoters() returns (all: seq<Voter>, err: Option<DbError>)
      ensures err.None?
      ensures |all| == |Keys(keyspace, WildcardKey())|
      ensures forall k :: k in Keys(keyspace, WildcardKey()) ==> keyspace[k] in all
      ensures forall i :: 0 <= i < |all| ==> all[i] in keyspace.Values
      ensures Valid() ==> |all| == |keyspace| && forall k :: k in keyspace ==> keyspace[k] in all
      ensures Valid() ==>
        forall i :: 0 <= i < |all| ==> IdKey(all[i].voterId) in keyspace && keyspace[IdKey(all[i].voterId)] == all[i]
      ensures Valid() ==> forall i, j :: 0 <= i < j < |all| ==> all[i].voterId != all[j].voterId
    {
      var allKeys := Keys(keyspace, WildcardKey());
      all := [];
      var remaining := allKeys;
      ghost var seen: set<string> := {};
      ghost var order: seq<string> := [];
      while remaining != {}
        invariant ListingProgress(keyspace, allKeys, remaining, seen, order, all)
        decreases remaining
      {
        var key :| key in remaining;
        var voter, fetchErr := FetchVoter(key);
        match fetchErr {
          case Some(inner) =>
            return [], Some(GettingAllVoters(key, inner));
          case None =>
        }
        ListingStep(keyspace, allKeys, remaining, seen, order, all, key);
        all := all + [voter];
        order := order + [key];
        remaining := remaining - {key};
        seen := seen + {key};
      }
      ListingCovers(keyspace, allKeys, seen, order, all);
      if Valid() {
        ValidKeysMatchWildcard();
        ListingByIds(keyspace, order, all);
      }
      return all, None;
    }
  }
}

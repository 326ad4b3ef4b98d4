/**
 * Client-side walks through both stores, using only the stores' contracts: the voter
 * lifecycle and the history lifecycle of one poll.
 */
module Scenarios {
  import opened Wrappers
  import opened VoterRecord
  import MemoryStore
  import RedisStore
  import opened RedisKeys

  /** Three voters added, a duplicate refused, all three listed. */
  method MemoryVoterLifecycle() {
    var store := new MemoryStore.VoterList();
    var v1 := Voter(1, "Count Chocula", "", []);
    var v2 := Voter(2, "Captain Crunch", "", []);
    var v3 := Voter(3, "Tony the Tiger", "", []);
    var err := store.AddVoter(v1);
    err := store.AddVoter(v2);
    err := store.AddVoter(v3);
    err := store.AddVoter(v1);
    assert err == Some(MemoryStore.VoterAlreadyExists);
    var all, listErr := store.GetAllVoters();
    assert |all| == 3;
  }

  /** Deleting an id twice succeeds both times; the voter is gone afterwards. */
  method MemoryDeleteTwice() {
    var store := new MemoryStore.VoterList();
    var err := store.AddVoter(Voter(1, "Count Chocula", "", []));
    err := store.DeleteVoter(1);
    err := store.DeleteVoter(1);
    assert err.None?;
    var v, getErr := store.GetVoter(1);
    assert getErr == Some(MemoryStore.VoterDoesNotExist);
  }

  /** Deleting an id twice fails the second time. */
  method RedisDeleteTwice() {
    var store := new RedisStore.VoterDB(map[]);
    var err := store.AddVoter(Voter(1, "Count Chocula", "", []));
    err := store.DeleteVoter(1);
    assert err.None?;
    err := store.DeleteVoter(1);
    assert err == Some(RedisStore.VoterNotFound);
    var v, getErr := store.GetVoter(1);
    assert getErr.Some?;
  }

  /** One poll's entry added, refused a second time, updated, read back and deleted. */
  method MemoryHistoryLifecycle(e1: VoterHistory, e2: VoterHistory, e3: VoterHistory)
    requires e1.pollId == e2.pollId == e3.pollId == 5
  {
    var store := new MemoryStore.VoterList();
    var err := store.AddVoter(Voter(1, "Count Chocula", "", []));
    var e, herr := store.AddHistoryByPollId(1, 5, e1);
    assert herr.None?;
    e, herr := store.GetHistoryByPollId(1, 5);
    assert herr.None? && e == e1;
    e, herr := store.AddHistoryByPollId(1, 5, e2);
    assert herr == Some(MemoryStore.HistoryExistsForPoll);
    e, herr := store.UpdateHistoryByPollId(1, 5, e3);
    assert herr.None?;
    e, herr := store.GetHistoryByPollId(1, 5);
    assert e == e3;
    err := store.DeleteHistoryByPollId(1, 5);
    assert err.None?;
    e, herr := store.GetHistoryByPollId(1, 5);
    assert herr == Some(MemoryStore.PollNotFound);
  }

  /** Three voters added, a duplicate refused, all three listed. */
  method RedisVoterLifecycle() {
    var store := new RedisStore.VoterDB(map[]);
    assert store.Valid();
    var v1 := Voter(1, "Count Chocula", "", []);
    var v2 := Voter(2, "Captain Crunch", "", []);
    var v3 := Voter(3, "Tony the Tiger", "", []);
    IdKeyInjective(1, 2);
    IdKeyInjective(1, 3);
    IdKeyInjective(2, 3);
    var err := store.AddVoter(v1);
    err := store.AddVoter(v2);
    err := store.AddVoter(v3);
    assert store.keyspace == map[IdKey(1) := v1, IdKey(2) := v2, IdKey(3) := v3];
    err := store.AddVoter(v1);
    assert err == Some(RedisStore.VoterAlreadyExists);
    var all, listErr := store.GetAllVoters();
    assert |all| == 3;
  }

  /** One poll's entry added, refused a second time, updated, read back and deleted. */
  method RedisHistoryLifecycle(e1: VoterHistory, e2: VoterHistory, e3: VoterHistory)
    requires e1.pollId == e2.pollId == e3.pollId == 5
  {
    var store := new RedisStore.VoterDB(map[]);
    var err := store.AddVoter(Voter(1, "Count Chocula", "", []));
    var e, herr := store.AddHistoryByPollId(1, 5, e1);
    assert herr.None?;
    assert store.HistoriesDistinct();
    e, herr := store.GetHistoryByPollId(1, 5);
    assert herr.None? && e == e1;
    e, herr := store.AddHistoryByPollId(1, 5, e2);
    assert herr == Some(RedisStore.HistoryAlreadyExists);
    e, herr := store.UpdateHistoryByPollId(1, 5, e3);
    assert herr.None?;
    e, herr := store.GetHistoryByPollId(1, 5);
    assert e == e3;
    err := store.DeleteHistoryByPollId(1, 5);
    assert err.None?;
    e, herr := store.GetHistoryByPollId(1, 5);
    assert herr == Some(RedisStore.PollNotFound);
  }
}

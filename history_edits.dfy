/**
 * What the document store does to a voter's history when it is addressed through the poll
 * filter `$.history[?(@.poll_id==p)]`: read all matches, overwrite all matches, delete all
 * matches. The lemmas relate these all-matches edits to the first-match edits of the
 * in-memory store, and state which edits keep poll ids distinct.
 */
module HistoryEdits {
  import opened Wrappers
  import opened VoterRecord

  /** The entries the poll filter selects, in history order. */
  function FilterByPoll(h: seq<VoterHistory>, p: nat): (r: seq<VoterHistory>)
    ensures |r| <= |h|
    ensures forall x :: x in r ==> x in h && x.pollId == p
    ensures forall x :: x in h && x.pollId == p ==> x in r
  {
    if h == [] then []
    else (if h[0].pollId == p then [h[0]] else []) + FilterByPoll(h[1..], p)
  }

  /** JSON.SET on the poll filter: every selected entry is replaced by `e`. */
  function SetByPoll(h: seq<VoterHistory>, p: nat, e: VoterHistory): seq<VoterHistory> {
    seq(|h|, i requires 0 <= i < |h| => if h[i].pollId == p then e else h[i])
  }

  /** JSON.DEL on the poll filter: every selected entry is removed, the rest keep their order. */
  function DeleteByPoll(h: seq<VoterHistory>, p: nat): seq<VoterHistory> {
    if h == [] then []
    else (if h[0].pollId == p then [] else [h[0]]) + DeleteByPoll(h[1..], p)
  }

  /** The filter and the deletion split the history: every entry lands in exactly one of them. */
  lemma {:induction false} FilterAndDeletePartition(h: seq<VoterHistory>, p: nat)
    ensures multiset(FilterByPoll(h, p)) + multiset(DeleteByPoll(h, p)) == multiset(h)
  {
    if h != [] {
      var t := h[1..];
      FilterAndDeletePartition(t, p);
      assert h == [h[0]] + t;
      if h[0].pollId == p {
        assert FilterByPoll(h, p) == [h[0]] + FilterByPoll(t, p);
        assert DeleteByPoll(h, p) == DeleteByPoll(t, p);
      } else {
        assert FilterByPoll(h, p) == FilterByPoll(t, p);
        assert DeleteByPoll(h, p) == [h[0]] + DeleteByPoll(t, p);
      }
    }
  }

  /** Nothing the deletion keeps belongs to the poll. */
  lemma {:induction false} DeleteByPollRemovesPoll(h: seq<VoterHistory>, p: nat)
    ensures forall x :: x in DeleteByPoll(h, p) ==> x.pollId != p
  {
    if h != [] {
      DeleteByPollRemovesPoll(h[1..], p);
    }
  }

  /** The filter selects nothing exactly when no entry has the poll, and its first hit is the first match. */
  lemma {:induction false} FilterHeadIsFirstMatch(h: seq<VoterHistory>, p: Uint)
    ensures FilterByPoll(h, p) == [] <==> FirstMatch(h, p).None?
    ensures FirstMatch(h, p).Some? ==> FilterByPoll(h, p)[0] == h[FirstMatch(h, p).value]
  {
    if h != [] && h[0].pollId != p {
      FilterHeadIsFirstMatch(h[1..], p);
    }
  }

  /** With distinct poll ids, overwriting all matches is overwriting the first match. */
  lemma SetByPollIsReplaceFirst(h: seq<VoterHistory>, p: Uint, e: VoterHistory)
    requires DistinctPollIds(h) && FirstMatch(h, p).Some?
    ensures SetByPoll(h, p, e) == h[FirstMatch(h, p).value := e]
  {
    var i := FirstMatch(h, p).value;
    forall j | 0 <= j < |h| ensures SetByPoll(h, p, e)[j] == h[i := e][j] {
    }
  }

  /** With distinct poll ids, deleting all matches is splicing out the first match. */
  lemma {:induction false} DeleteByPollIsRemoveFirst(h: seq<VoterHistory>, p: Uint)
    requires DistinctPollIds(h) && FirstMatch(h, p).Some?
    ensures var i := FirstMatch(h, p).value; DeleteByPoll(h, p) == h[..i] + h[i + 1..]
  {
    var t := h[1..];
    if h[0].pollId == p {
      forall j | 0 <= j < |t| ensures t[j].pollId != p {
        assert t[j] == h[j + 1];
      }
      NoMatchDeletesNothing(t, p);
    } else {
      assert DistinctPollIds(t);
      DeleteByPollIsRemoveFirst(t, p);
      var k := FirstMatch(t, p).value;
      assert FirstMatch(h, p).value == k + 1;
      calc {
        DeleteByPoll(h, p);
        [h[0]] + DeleteByPoll(t, p);
        [h[0]] + (t[..k] + t[k + 1..]);
        { assert t[..k] == h[1..k + 1]; assert t[k + 1..] == h[k + 2..]; }
        [h[0]] + (h[1..k + 1] + h[k + 2..]);
        { assert [h[0]] + h[1..k + 1] == h[..k + 1]; }
        h[..k + 1] + h[k + 2..];
      }
    }
  }

  /** Deleting a poll nobody voted in leaves the history as it is. */
  lemma {:induction false} NoMatchDeletesNothing(h: seq<VoterHistory>, p: nat)
    requires forall j :: 0 <= j < |h| ==> h[j].pollId != p
    ensures DeleteByPoll(h, p) == h
  {
    if h != [] {
      var t := h[1..];
      assert forall j :: 0 <= j < |t| ==> t[j] == h[j + 1];
      NoMatchDeletesNothing(t, p);
    }
  }

  /** Appending an entry for a poll not yet in the history keeps poll ids distinct. */
  lemma AppendKeepsDistinct(h: seq<VoterHistory>, e: VoterHistory)
    requires DistinctPollIds(h) && FirstMatch(h, e.pollId).None?
    ensures DistinctPollIds(h + [e])
  {
  }

  /** Overwriting an entry by one for the same poll keeps poll ids distinct. */
  lemma ReplaceKeepsDistinct(h: seq<VoterHistory>, i: nat, e: VoterHistory)
    requires DistinctPollIds(h) && i < |h| && h[i].pollId == e.pollId
    ensures DistinctPollIds(h[i := e])
  {
  }

  /** Splicing out one entry keeps poll ids distinct. */
  lemma RemoveKeepsDistinct(h: seq<VoterHistory>, i: nat)
    requires DistinctPollIds(h) && i < |h|
    ensures DistinctPollIds(h[..i] + h[i + 1..])
  {
    var r := h[..i] + h[i + 1..];
    forall a, b | 0 <= a < b < |r| ensures r[a].pollId != r[b].pollId {
      var a', b' := if a < i then a else a + 1, if b < i then b else b + 1;
      assert r[a] == h[a'] && r[b] == h[b'];
    }
  }

  /** Overwriting all matches of `p` by an entry for `p` keeps poll ids distinct. */
  lemma SetByPollKeepsDistinct(h: seq<VoterHistory>, e: VoterHistory)
    requires DistinctPollIds(h)
    ensures DistinctPollIds(SetByPoll(h, e.pollId, e))
  {
    if FirstMatch(h, e.pollId).Some? {
      SetByPollIsReplaceFirst(h, e.pollId, e);
      ReplaceKeepsDistinct(h, FirstMatch(h, e.pollId).value, e);
    } else {
      assert SetByPoll(h, e.pollId, e) == h;
    }
  }

  /** Deleting all matches keeps poll ids distinct. */
  lemma DeleteByPollKeepsDistinct(h: seq<VoterHistory>, p: Uint)
    requires DistinctPollIds(h)
    ensures DistinctPollIds(DeleteByPoll(h, p))
  {
    if FirstMatch(h, p).Some? {
      DeleteByPollIsRemoveFirst(h, p);
      RemoveKeepsDistinct(h, FirstMatch(h, p).value);
    } else {
      NoMatchDeletesNothing(h, p);
    }
  }

  /**
   * Without distinct poll ids the two stores part ways: the document store overwrites and
   * deletes every entry of the poll, the in-memory store only the first.
   */
  lemma DuplicatePollsDiverge(a: VoterHistory, b: VoterHistory, e: VoterHistory)
    requires a.pollId == b.pollId && b != e
    ensures SetByPoll([a, b], a.pollId, e) != [a, b][0 := e]
    ensures DeleteByPoll([a, b], a.pollId) != [b]
  {
    assert SetByPoll([a, b], a.pollId, e)[1] == e;
    assert [a, b][1..] == [b] && [b][1..] == [];
    assert DeleteByPoll([b], a.pollId) == [] + DeleteByPoll([], a.pollId) == [];
    assert DeleteByPoll([a, b], a.pollId) == [] + DeleteByPoll([b], a.pollId);
  }
}

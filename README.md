# Voter store, modelled and verified in Dafny

The voter service keeps voters. Each voter has an id, a name, an email and an ordered vote
history. Each history entry records one vote in one poll and is looked up by its poll id.
The store comes in two versions:

- **`VoterList`**, the in-memory store (`voter-api/db/voter_list.go`). It is an object that
  owns a map from voter id to voter. `AddVoter`, `UpdateVoter` and `GetVoter` check whether
  the id exists before they act; `DeleteVoter` and `DeleteAll` do not check. Every history
  operation first checks that the voter exists, then scans the voter's history for the first
  entry of the poll, then appends, overwrites in place or splices out.
- **`VoterDB`**, the document-backed store (`voter-container/db/voter_list.go`). It keeps one
  JSON document per voter in Redis with the RedisJSON module, under the key `voter:<id>`. It
  reaches history entries through the JSONPath filter `$.history[?(@.poll_id==<poll>)]`.
  Every writing operation except `DeleteAll` reads first and then writes; `DeleteAll` writes
  without reading, and `GetVoter`, `GetAllVoters` and `GetHistoryByPollId` only read.

Neither store calls the voter's own first-match lookup `Voter.GetHistoryByPollId`
(`voter-api/db/voter.go`): the in-memory store repeats its loop, and the document-backed store
reads through the poll filter. The model states both stores' lookups against it.

## Layout

| file | module | contents |
|---|---|---|
| `wrappers.dfy` | `Wrappers` | `Option`, `Result` |
| `voter_record.dfy` | `VoterRecord` | the records, the zero values, the distinct-poll-ids invariant, `FirstMatch`, `GetHistoryByPollId` |
| `history_edits.dfy` | `HistoryEdits` | what the poll filter selects, overwrites and deletes; lemmas tying these to the first-match edits and to the invariant |
| `listings.dfy` | `Listings` | the state of a "list everything" loop and what it has built once it ends |
| `decimal.dfy` | `Decimal` | `%d` formatting of an unsigned number and reading it back |
| `redis_json.dfy` | `RedisJson` | the database as a map from key to voter document; the JSON.GET, JSON.SET, JSON.DEL, JSON.ARRAPPEND, DEL, FLUSHDB and KEYS commands as functions of that map |
| `redis_keys.dfy` | `RedisKeys` | `idKey`, `voterKey`, `wildcardKey`, `pollIdPath` |
| `memory_store.dfy` | `MemoryStore` | class `VoterList` with its field `voters` |
| `redis_store.dfy` | `RedisStore` | class `VoterDB` with its field `keyspace` |
| `scenarios.dfy` | `Scenarios` | client walks through both stores that use only the stores' contracts |

Each class has two ghost invariants. `Valid()` says every voter is stored under its own id
(or its own id's key). `HistoriesDistinct()` says no stored history holds two entries for
the same poll. Every writing method preserves `Valid()`. Every writing method also preserves
`HistoriesDistinct()` when the record or entry it writes keeps that invariant. For the history
writers, that means the new entry is for the poll named in the call.

## How the database is modelled

The database is a map from key to voter document, held in `VoterDB.keyspace`. A command is a
function of that map, and a write replaces the field. The commands behave as follows:

- JSON.GET on a missing key gives an empty reply and no error. The code relies on this, because `AddVoter` treats an empty reply as "no such voter" (`voter-container/db/voter_list.go:64-70`). The end-to-end test also expects the first add to succeed (`voter-container/tests/e2e_test.go:220-224`).
- Decoding the empty reply fails, so `fetchVoter` and `fetchHistory` report a decoding error for a missing voter.
- JSON.SET and JSON.ARRAPPEND at a path inside a missing document are refused.
- JSON.DEL on a missing key changes nothing.
- A filter path selects **every** entry of the poll, not just the first:
  - JSON.GET returns all matches in history order.
  - JSON.SET overwrites all matches.
  - JSON.DEL removes all matches.
- KEYS with `voter:*` returns the keys that start with `voter:`.

The in-memory store edits only the **first** match. `HistoryEdits` proves that the two
behaviours agree whenever poll ids are distinct (`SetByPollIsReplaceFirst`,
`DeleteByPollIsRemoveFirst`). `DuplicatePollsDiverge` shows that they can differ otherwise:
for a history `[a, b]` of two entries for the same poll, deleting through the filter differs
from splicing out the first entry, and overwriting through the filter with an entry other than
`b` differs from overwriting the first entry. (Overwriting with `b` itself gives the same
history either way.)

A Go `uint` is read as a 64-bit unsigned integer (`VoterRecord.Uint`). Ids are never computed
on, so nothing can wrap around.

### Where the code and its documentation disagree

`VoterList.DeleteVoter` never fails. It deletes the key if it is present and returns nil
either way (`voter-api/db/voter_list.go:84-86`). Its doc comment (`voter-api/db/voter_list.go:63-75`)
and the unit test for an empty store (`voter-container/db/db_test.go:35-42`) both expect an
error for an absent id. The model follows the code: `MemoryStore.VoterList.DeleteVoter`
always returns `None`, and a second delete of the same id is harmless (`Scenarios.MemoryDeleteTwice`).
`VoterDB.DeleteVoter` does refuse an absent id (`Scenarios.RedisDeleteTwice`).

## Model

| member | source | states |
|---|---|---|
| VoterRecord.FirstMatch | voter-api/db/voter.go:13-18 | a returned position is in range, holds an entry for the poll, and no earlier entry does; no position is returned exactly when no entry has the poll |
| VoterRecord.GetHistoryByPollId | voter-api/db/voter.go:12-19 | succeeds exactly when some entry has the poll; the entry returned has the requested poll id and sits at a position with no earlier entry for the poll; otherwise the zero entry and "poll not found in voter history"; the voter is a value, so it is not changed |
| HistoryEdits.FilterByPoll | voter-container/db/voter_list.go:134 | the filter's reply is no longer than the history, holds only history entries of the poll, and holds every history entry of the poll |
| HistoryEdits.FilterAndDeletePartition | voter-container/db/voter_list.go:205 | what the filter selects and what deleting through the filter keeps split the history: together they are the history as a multiset |
| HistoryEdits.DeleteByPollRemovesPoll | voter-container/db/voter_list.go:205 | after a delete through the filter, no entry of the poll is left |
| HistoryEdits.FilterHeadIsFirstMatch | voter-container/db/voter_list.go:134-148 | the filter selects nothing exactly when the first-match search finds nothing, and the filter's first entry is the entry at the first match |
| HistoryEdits.SetByPollIsReplaceFirst | voter-container/db/voter_list.go:187 | with distinct poll ids, overwriting every match is overwriting the first match in place, as `voter-api/db/voter_list.go:167-170` does |
| HistoryEdits.DeleteByPollIsRemoveFirst | voter-container/db/voter_list.go:205 | with distinct poll ids, deleting every match is splicing out the first match and keeping the rest in order, as `voter-api/db/voter_list.go:183-187` does |
| HistoryEdits.NoMatchDeletesNothing | voter-container/db/voter_list.go:205 | deleting a poll that no entry has leaves the history unchanged |
| HistoryEdits.AppendKeepsDistinct | voter-api/db/voter_list.go:149-155 | appending an entry for a poll the history does not hold keeps poll ids distinct |
| HistoryEdits.ReplaceKeepsDistinct | voter-api/db/voter_list.go:167-169 | overwriting a position with an entry for the same poll keeps poll ids distinct |
| HistoryEdits.RemoveKeepsDistinct | voter-api/db/voter_list.go:185 | splicing out one entry keeps poll ids distinct |
| HistoryEdits.SetByPollKeepsDistinct | voter-container/db/voter_list.go:187 | overwriting every match of a poll with an entry for that poll keeps poll ids distinct |
| HistoryEdits.DeleteByPollKeepsDistinct | voter-container/db/voter_list.go:205 | deleting every match of a poll keeps poll ids distinct |
| HistoryEdits.DuplicatePollsDiverge | voter-container/db/voter_list.go:187-205 | for a history `[a, b]` of two entries for one poll, deleting every match differs from splicing out the first (`voter-api/db/voter_list.go:185`), and overwriting every match with an entry other than `b` differs from overwriting the first (`voter-api/db/voter_list.go:169`) |
| Listings.ListingCovers | voter-api/db/voter_list.go:239-241 | a loop that stored the value of each visited key, and visited every key once, holds one value per key, as many values as keys, and only stored values |
| Decimal.DecimalString | voter-container/db/voter_list.go:42 | `%d` writes at least one digit, only digits, and no leading zero unless the number is 0 |
| Decimal.ParseDecimalString | voter-container/db/voter_list.go:41-43 | reading back the digits `%d` wrote gives the number again |
| Decimal.DecimalStringInjective | voter-container/db/voter_list.go:42 | distinct numbers are written as distinct numerals |
| RedisKeys.IdKey | voter-container/db/voter_list.go:41-43 | the key of an id reads back as that id, so distinct ids never share a key |
| RedisKeys.VoterKey | voter-container/db/voter_list.go:36-38 | the key of a voter reads back as the voter's id |
| RedisKeys.WildcardKey | voter-container/db/voter_list.go:45-47 | the pattern matches the key of every id |
| RedisKeys.PollIdPath | voter-container/db/voter_list.go:51-53 | the path reads back as the filter on exactly the requested poll id |
| RedisKeys.IdKeyInjective | voter-container/db/voter_list.go:41-43 | two ids share a key exactly when they are equal |
| MemoryStore.ListingByIds | voter-api/db/voter_list.go:239-241 | when every voter sits under its own id, the listed values are stored under their own ids and no id is listed twice |
| MemoryStore.VoterList.constructor | voter-api/db/voter_list.go:21-28 | the store starts empty, so both invariants hold |
| MemoryStore.VoterList.AddVoter | voter-api/db/voter_list.go:47-61 | an id already present gives "voter already exists" and no change; otherwise the record is stored under its id and no other key changes; `Valid()` is kept, and `HistoriesDistinct()` is kept when the record's own poll ids are distinct |
| MemoryStore.VoterList.DeleteVoter | voter-api/db/voter_list.go:76-87 | always succeeds and leaves the map without the id, whether or not it was there |
| MemoryStore.VoterList.DeleteAll | voter-api/db/voter_list.go:91-98 | always succeeds and leaves the map empty |
| MemoryStore.VoterList.UpdateVoter | voter-api/db/voter_list.go:113-127 | an absent id gives "voter does not exist" and no change; otherwise the whole record, history included, replaces the stored one at that id only |
| MemoryStore.VoterList.GetHistoryByPollId | voter-api/db/voter_list.go:129-141 | an absent voter gives "voter does not exist"; otherwise the entry at the first match, or "poll not found in voter history"; it agrees with `Voter.GetHistoryByPollId` on the stored voter and changes nothing |
| MemoryStore.VoterList.AddHistoryByPollId | voter-api/db/voter_list.go:143-159 | an absent voter gives "voter does not exist"; a poll already in the history gives "voter history already exists for that poll"; both leave the map unchanged; otherwise the entry is appended at the end of that voter's history, only that voter changes, and the entry is returned |
| MemoryStore.VoterList.UpdateHistoryByPollId | voter-api/db/voter_list.go:161-175 | an absent voter or an absent poll gives an error and no change; otherwise exactly the first matching position is overwritten, so the length and every other position stay, and only that voter changes |
| MemoryStore.VoterList.DeleteHistoryByPollId | voter-api/db/voter_list.go:177-194 | an absent voter or an absent poll gives an error and no change; otherwise exactly the first matching entry is spliced out and the others keep their order |
| MemoryStore.VoterList.GetVoter | voter-api/db/voter_list.go:210-221 | the stored record, or the zero voter and "voter does not exist"; changes nothing |
| MemoryStore.VoterList.GetAllVoters | voter-api/db/voter_list.go:233-245 | never fails; returns as many voters as the map holds, every stored voter, and only stored voters; when voters sit under their own ids, each listed voter is the one stored under its id and no id appears twice |
| RedisStore.ListingByIds | voter-container/db/voter_list.go:245-251 | when every document sits under its id's key, the listed documents are stored under their ids' keys and no id is listed twice |
| RedisStore.VoterDB.constructor | voter-container/db/voter_list.go:20-33 | the store works on the database as it is |
| RedisStore.VoterDB.FetchVoter | voter-container/db/voter_list.go:213-226 | the document at the key, or the zero voter and a decoding error when the key holds none |
| RedisStore.VoterDB.FetchHistory | voter-container/db/voter_list.go:131-149 | a voter with no document gives a decoding error; otherwise the first entry the filter selects, or "poll not found in vote history" when it selects none; it agrees with `Voter.GetHistoryByPollId` on the stored document |
| RedisStore.VoterDB.AddVoter | voter-container/db/voter_list.go:59-80 | a key that already holds a document gives "voter already exists" and no write; otherwise the whole record is written at the id's key and nothing else changes |
| RedisStore.VoterDB.DeleteVoter | voter-container/db/voter_list.go:82-99 | an id with no document gives "voter not found" and no write; otherwise exactly that key is deleted |
| RedisStore.VoterDB.DeleteAll | voter-container/db/voter_list.go:102-109 | always succeeds and leaves the database empty |
| RedisStore.VoterDB.UpdateVoter | voter-container/db/voter_list.go:111-129 | an id with no document gives "voter does not exist" and no write; otherwise the whole document at that key is replaced, history included |
| RedisStore.VoterDB.GetHistoryByPollId | voter-container/db/voter_list.go:151-153 | a voter with no document gives a decoding error; otherwise the same entry as `Voter.GetHistoryByPollId` on the stored document, and "poll not found in vote history" where that lookup fails |
| RedisStore.VoterDB.AddHistoryByPollId | voter-container/db/voter_list.go:155-175 | an entry already found for the poll gives "history already exists" and no write; an absent voter passes that check and is refused by the append; otherwise the entry is appended at the end of `$.history`, only that document changes, and the entry is returned |
| RedisStore.VoterDB.UpdateHistoryByPollId | voter-container/db/voter_list.go:177-193 | an absent voter or an absent poll gives "history does not exist" and no write; otherwise every entry the filter selects is overwritten, every other entry stays, and only that document changes |
| RedisStore.VoterDB.DeleteHistoryByPollId | voter-container/db/voter_list.go:195-211 | an absent voter or an absent poll gives "history does not exist" and no write; otherwise every entry the filter selects is deleted, the others keep their order, and only that document changes |
| RedisStore.VoterDB.ValidKeysMatchWildcard | voter-container/db/voter_list.go:45-47 | when every document sits under its id's key, KEYS with the voter pattern returns every key of the database |
| RedisStore.VoterDB.GetVoter | voter-container/db/voter_list.go:228-231 | the document at the id's key, or the zero voter and a decoding error; changes nothing |
| RedisStore.VoterDB.GetAllVoters | voter-container/db/voter_list.go:235-255 | never fails on the modelled database; returns one document per key matching `voter:*`, every such document, and only stored documents; when documents sit under their ids' keys, that is every stored voter, each under its id's key, with no id twice |

## Left out

- HTTP handlers (`voter-api/api/api_handler.go`, `voter-container/api/api_handler.go`): request parsing, status codes, the request counters and uptime, and the handler's reattaching of the old history on update. They are web-framework glue and belong to the handlers, not the store.
- `voter-container/main.go`: environment lookup, route registration and server start-up are process glue.
- `PrintVoter`, `PrintAllVoters` and `JsonToVoter` (`voter-api/db/voter_list.go:250-276`): console output and `encoding/json` calls.
- The Redis ping in `New` and in `HealthCheck` (`voter-container/db/voter_list.go:27-30`, `257-263`): network calls. `RedisStore.VoterDB.constructor` takes the database as it is.
- Transport failures of the Redis client: the model has no lost connection or server error. As a result, it never produces the "deleting voter" error (`voter-container/db/voter_list.go:93-96`) or the "getting all voter keys" error (`voter-container/db/voter_list.go:236-239`). The ignored error of FLUSHDB adds nothing beyond that.
- The `json.Marshal` failure in `VoterDB.AddHistoryByPollId` (`voter-container/db/voter_list.go:164-167`): marshalling a `time.Time` fails for a year outside 0..9999 or an out-of-range zone offset, giving "marshalling history entry: …". The model's opaque `VoteDate` has no instant that cannot be encoded, so this branch cannot be reached in the model. (Request bodies decoded from JSON only carry years 0..9999.)
- The same marshal failure on the JSON.SET paths: go-redis marshals a non-string value before sending it, so in the source `VoterDB.AddVoter` (`voter-container/db/voter_list.go:73-76`), `VoterDB.UpdateVoter` (lines 123-126) and `VoterDB.UpdateHistoryByPollId` (lines 187-190) fail with their "add voter", "updating voter" and "updating history by poll id" errors for a vote date that cannot be encoded. In the model `RedisJson.JsonSetDocument` and `RedisJson.JsonSetEntry` succeed for every value.
- The JSON encoding of documents and replies: a document is a `Voter` value, and a reply is the list of values it carries. Only the empty reply of a missing key is treated as undecodable.
- RedisJSON's JSONPath language beyond the three shapes the store sends (`$`, `$.history`, the poll filter). Another path is refused as unsupported, and KEYS patterns support only a trailing `*`.
- `nil` slices versus empty ones: `Voter` holds a sequence, so a `nil` history and an empty one are the same value. On the real server, appending to a history stored as JSON `null` fails. Likewise `VoterList.GetAllVoters` returns a `nil` slice for an empty map (`voter-api/db/voter_list.go:236`), which the handler turns into an empty list (`voter-api/api/api_handler.go:36-42`); the model returns the empty sequence.
- Concurrency: the check-then-act races between the read and the write of every `VoterDB` method, and the unsynchronised map of `VoterList`. Calls are modelled one at a time.
- Slice aliasing in `VoterList`: the in-place write at `voter-api/db/voter_list.go:169` and the `slices.Delete` at line 185 act on a backing array that a caller holding an earlier copy of the voter may share. The model treats histories as values, so it shows the map's new contents but not that effect on other copies.
- Map and KEYS iteration order: `MemoryStore.VoterList.GetAllVoters` and `RedisStore.VoterDB.GetAllVoters` promise no order, just as Go's map iteration and the KEYS reply do not.
- `VoteDate` is an opaque value, not a `time.Time`: no operation of the stores computes with it.
- `todo/tests/todo_test.go` tests a package whose source is not part of this model.

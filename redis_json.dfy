/**
 * The document store (Redis with the RedisJSON module) as the voter store sees it: a keyspace
 * that maps each key to one voter document, and the commands the store sends to it. Paths are
 * passed as the JSONPath strings the store builds; the model reads exactly the three shapes
 * the store uses: the root `$`, the history array `$.history`, and the filter
 * `$.history[?(@.poll_id==N)]`.
 */
module RedisJson {
  import opened Wrappers
  import opened VoterRecord
  import opened HistoryEdits
  import Decimal

  /** The contents of the database: each key holds one voter document. */
  type Keyspace = map<string, Voter>

  /** What a JSONPath string that the store sends points at. */
  datatype Path = Root | HistoryArray | PollFilter(pollId: nat)

  const RootPath := "$"
  const HistoryPath := "$.history"
  const FilterOpen := "$.history[?(@.poll_id=="
  const FilterClose := ")]"

  /** Reads a JSONPath string; paths of any other shape are outside the model. */
  function ParsePath(s: string): Option<Path> {
    if s == RootPath then Some(Root)
    else if s == HistoryPath then Some(HistoryArray)
    else if |FilterOpen| + |FilterClose| <= |s|
         && s[..|FilterOpen|] == FilterOpen && s[|s| - |FilterClose|..] == FilterClose then
      match Decimal.ParseDecimal(s[|FilterOpen|..|s| - |FilterClose|])
      case Some(n) => Some(PollFilter(n))
      case None => None
    else None
  }

  /**
   * Why a command is refused. The server reports these with its own error texts; the
   * messages here only stand in for them.
   */
  datatype CommandError =
    | NoSuchKey        // the command needs an existing document and the key holds none
    | UnsupportedPath  // a path outside the three shapes above
  {
    function Message(): string {
      match this
      case NoSuchKey => "no document at key"
      case UnsupportedPath => "unsupported path"
    }
  }

  /**
   * The reply of JSON.GET: nothing for a missing key (go-redis hands back the empty string
   * with no error), the one-element array of the document for `$`, the matching entries for
   * a filter.
   */
  datatype Reply = NilReply | Documents(voters: seq<Voter>) | Entries(entries: seq<VoterHistory>)

  /** JSON.GET key path */
  function JsonGet(ks: Keyspace, key: string, path: string): Result<Reply, CommandError> {
    if key !in ks then Ok(NilReply)
    else match ParsePath(path)
      case Some(Root) => Ok(Documents([ks[key]]))
      case Some(PollFilter(p)) => Ok(Entries(FilterByPoll(ks[key].voteHistory, p)))
      case _ => Err(UnsupportedPath)
  }

  /** JSON.SET key path document: a whole voter written at the root, created if absent. */
  function JsonSetDocument(ks: Keyspace, key: string, path: string, v: Voter): Result<Keyspace, CommandError> {
    if ParsePath(path) == Some(Root) then Ok(ks[key := v]) else Err(UnsupportedPath)
  }

  /** JSON.SET key path entry: every entry the filter selects is overwritten. */
  function JsonSetEntry(ks: Keyspace, key: string, path: string, e: VoterHistory): Result<Keyspace, CommandError> {
    if key !in ks then Err(NoSuchKey)
    else match ParsePath(path)
      case Some(PollFilter(p)) =>
        Ok(ks[key := ks[key].(voteHistory := SetByPoll(ks[key].voteHistory, p, e))])
      case _ => Err(UnsupportedPath)
  }

  /** JSON.DEL key path: every entry the filter selects is removed; a missing key deletes nothing. */
  function JsonDel(ks: Keyspace, key: string, path: string): Result<Keyspace, CommandError> {
    if key !in ks then Ok(ks)
    else match ParsePath(path)
      case Some(PollFilter(p)) =>
        Ok(ks[key := ks[key].(voteHistory := DeleteByPoll(ks[key].voteHistory, p))])
      case _ => Err(UnsupportedPath)
  }

  /** JSON.ARRAPPEND key path entry: the entry goes to the end of the history array. */
  function JsonArrAppend(ks: Keyspace, key: string, path: string, e: VoterHistory): Result<Keyspace, CommandError> {
    if key !in ks then Err(NoSuchKey)
    else if ParsePath(path) == Some(HistoryArray) then
      Ok(ks[key := ks[key].(voteHistory := ks[key].voteHistory + [e])])
    else Err(UnsupportedPath)
  }

  /** DEL key */
  function Del(ks: Keyspace, key: string): Keyspace {
    ks - {key}
  }

  /** FLUSHDB */
  function FlushDb(ks: Keyspace): Keyspace {
    map[]
  }

  /** Glob matching for patterns whose only wildcard is a final `*`. */
  predicate GlobMatch(pattern: string, key: string) {
    if 0 < |pattern| && pattern[|pattern| - 1] == '*' then
      var prefix := pattern[..|pattern| - 1];
      |prefix| <= |key| && key[..|prefix|] == prefix
    else
      key == pattern
  }

  /** KEYS pattern */
  function Keys(ks: Keyspace, pattern: string): set<string> {
    set k | k in ks && GlobMatch(pattern, k)
  }
}

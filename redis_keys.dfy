/** The key scheme of the document-backed store (voter-container/db/voter_list.go). */
module RedisKeys {
  import opened Wrappers
  import opened VoterRecord
  import Decimal
  import RedisJson

  const KeyPrefix := "voter:"

  /** Reads a voter key back into the id it names. */
  function ParseIdKey(k: string): Option<Uint> {
    if |KeyPrefix| <= |k| && k[..|KeyPrefix|] == KeyPrefix then
      match Decimal.ParseDecimal(k[|KeyPrefix|..])
      case Some(n) => if n < 0x1_0000_0000_0000_0000 then Some(n) else None
      case None => None
    else None
  }

  /** `idKey`: `voter:` and the decimal id; the id can be read back, so distinct ids never share a key. */
  function IdKey(id: Uint): (k: string)
    ensures ParseIdKey(k) == Some(id)
  {
    var k := "voter:" + Decimal.DecimalString(id);
    assert k[..|KeyPrefix|] == KeyPrefix && k[|KeyPrefix|..] == Decimal.DecimalString(id);
    Decimal.ParseDecimalString(id);
    k
  }

  /** `voterKey`: the key of a voter is the key of its id. */
  function VoterKey(v: Voter): (k: string)
    ensures ParseIdKey(k) == Some(v.voterId)
  {
    IdKey(v.voterId)
  }

  /** `wildcardKey`: the KEYS pattern that matches every voter key. */
  function WildcardKey(): (p: string)
    ensures forall id: Uint :: RedisJson.GlobMatch(p, IdKey(id))
  {
    "voter:*"
  }

  /** `pollIdPath`: the JSONPath filter that selects the history entries of one poll. */
  function PollIdPath(id: Uint): (p: string)
    ensures RedisJson.ParsePath(p) == Some(RedisJson.PollFilter(id))
  {
    var digits := Decimal.DecimalString(id);
    var p := "$.history[?(@.poll_id==" + digits + ")]";
    assert p[..|RedisJson.FilterOpen|] == RedisJson.FilterOpen;
    assert p[|p| - |RedisJson.FilterClose|..] == RedisJson.FilterClose;
    assert p[|RedisJson.FilterOpen|..|p| - |RedisJson.FilterClose|] == digits;
    Decimal.ParseDecimalString(id);
    p
  }

  /** Two ids share a key only if they are the same id. */
  lemma IdKeyInjective(a: Uint, b: Uint)
    ensures IdKey(a) == IdKey(b) <==> a == b
  {
    if IdKey(a) == IdKey(b) {
      assert IdKey(a)[|KeyPrefix|..] == Decimal.DecimalString(a);
      assert IdKey(b)[|KeyPrefix|..] == Decimal.DecimalString(b);
      Decimal.DecimalStringInjective(a, b);
    }
  }
}

/** Key namespacing: every key the storage layer uses lives under one prefix. */
module Keys {
  import opened KeyOrder

  const KeyPrefix := "/pcs/"
  const KeySegPowerState := "/powerstate"
  /** The low and high sentinels appended to a segment to scan all keys below it. */
  const KeyMin := " "
  const KeyMax := "~"

  predicate HasPrefix(s: string, p: string)
  {
    |p| <= |s| && s[..|p|] == p
  }

  /**
   * The real backend key of a logical key: unchanged when it already carries
   * the prefix, otherwise the prefix followed by the key without one leading
   * slash.
   */
  function FixUpKey(k: string): (r: string)
    ensures HasPrefix(r, KeyPrefix)
    ensures HasPrefix(k, KeyPrefix) ==> r == k
  {
    if HasPrefix(k, KeyPrefix) then k
    else if HasPrefix(k, "/") then KeyPrefix + k[1..]
    else KeyPrefix + k
  }

  lemma FixUpKeyIdempotent(k: string)
    ensures FixUpKey(FixUpKey(k)) == FixUpKey(k)
  {
  }

  /**
   * A key without a leading slash gets the prefix in front of it, whole; a
   * key behind a slash loses exactly that one slash (so "//a" keeps the
   * second), unless the prefix is already there.
   */
  lemma FixUpKeyDropsOneSlash(k: string)
    ensures !HasPrefix(k, "/") ==> FixUpKey(k) == KeyPrefix + k
    ensures !HasPrefix(k, "pcs/") ==> FixUpKey("/" + k) == KeyPrefix + k
  {
    if HasPrefix("/" + k, KeyPrefix) {
      assert ("/" + k)[1..5] == k[..4];
    }
  }

  /** The logical key of a component's status record, "<segment>/<xname>". */
  function StatusKey(xname: string): (k: string)
  {
    KeySegPowerState + "/" + xname
  }

  /** The real key of a component's status record. */
  function StatusRealKey(xname: string): (r: string)
    ensures r == "/pcs/powerstate/" + xname
  {
    var k := StatusKey(xname);
    assert k[..5] == "/powe" != KeyPrefix;
    assert k[..1] == "/";
    assert k[1..] == "powerstate/" + xname;
    FixUpKey(k)
  }

  lemma StatusKeysDistinct(x: string, y: string)
    requires x != y
    ensures StatusRealKey(x) != StatusRealKey(y)
  {
    var p := "/pcs/powerstate/";
    assert (p + x)[|p|..] == x && (p + y)[|p|..] == y;
  }

  /** The bounds of the scan over every power status record. */
  function ScanLow(): (r: string)
    ensures r == "/pcs/powerstate "
  {
    assert KeySegPowerState[..1] == "/" && KeySegPowerState[..5] == "/powe" != KeyPrefix;
    FixUpKey(KeySegPowerState) + KeyMin
  }

  function ScanHigh(): (r: string)
    ensures r == "/pcs/powerstate~"
  {
    assert KeySegPowerState[..1] == "/" && KeySegPowerState[..5] == "/powe" != KeyPrefix;
    FixUpKey(KeySegPowerState) + KeyMax
  }

  /** Every status record's real key lies in the scan range. */
  lemma StatusKeyInScanRange(xname: string)
    ensures InRange(StatusRealKey(xname), ScanLow(), ScanHigh())
  {
    var p := "/pcs/powerstate";
    var tail := "/" + xname;
    assert StatusRealKey(xname) == p + tail;
    assert ScanLow() == p + " " && ScanHigh() == p + "~";
    assert Less(" ", tail) by { assert tail[0] == '/'; }
    assert Less(tail, "~") by { assert tail[0] == '/'; }
    LessCommonPrefix(p, " ", tail);
    LessCommonPrefix(p, tail, "~");
    LessAsymmetric(p + " ", p + tail);
  }
}

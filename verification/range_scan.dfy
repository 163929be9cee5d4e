/**
 * What a scan over the power status records yields: the records of the
 * pairs that decode, in listing order, and the decode error of the last pair.
 */
module RangeScan {
  import opened Wrappers
  import opened StorageTypes
  import opened KeyOrder
  import opened Keys
  import opened Backend

  /** The decoded values of the pairs that decode without error, in order. */
  function Decodable<T>(unmarshal: string -> Decoded<T>, kvl: seq<KV>): (records: seq<T>)
    decreases |kvl|
  {
    if kvl == [] then []
    else
      var d := unmarshal(kvl[|kvl| - 1].value);
      Decodable(unmarshal, kvl[..|kvl| - 1]) + (if d.failure.None? then [d.value] else [])
  }

  /** The error left over from decoding the pairs one after the other: that of the last pair. */
  function LastDecodeError<T>(unmarshal: string -> Decoded<T>, kvl: seq<KV>): (err: Option<Error>)
  {
    if kvl == [] then None else AsJsonError(unmarshal(kvl[|kvl| - 1].value).failure)
  }

  /** Scanning never returns more records than there are pairs, and returns one per pair exactly when every pair decodes. */
  lemma {:induction false} DecodableCount<T>(unmarshal: string -> Decoded<T>, kvl: seq<KV>)
    ensures |Decodable(unmarshal, kvl)| <= |kvl|
    ensures |Decodable(unmarshal, kvl)| == |kvl| <==>
      forall i :: 0 <= i < |kvl| ==> unmarshal(kvl[i].value).failure.None?
    decreases |kvl|
  {
    if kvl != [] {
      var n := |kvl| - 1;
      var front := kvl[..n];
      DecodableCount(unmarshal, front);
      if forall i :: 0 <= i < |kvl| ==> unmarshal(kvl[i].value).failure.None? {
        assert forall i :: 0 <= i < |front| ==> front[i] == kvl[i];
      } else if unmarshal(kvl[n].value).failure.None? {
        var i :| 0 <= i < |kvl| && !unmarshal(kvl[i].value).failure.None?;
        assert front[i] == kvl[i];
      }
    }
  }

  /** A record is returned exactly when some pair decodes to it without error. */
  lemma {:induction false} DecodableMembers<T>(unmarshal: string -> Decoded<T>, kvl: seq<KV>, r: T)
    ensures r in Decodable(unmarshal, kvl) <==>
      exists i :: 0 <= i < |kvl| && unmarshal(kvl[i].value) == Decoded(r, None)
    decreases |kvl|
  {
    if kvl != [] {
      var n := |kvl| - 1;
      var front := kvl[..n];
      DecodableMembers(unmarshal, front, r);
      if r in Decodable(unmarshal, kvl) {
        if r in Decodable(unmarshal, front) {
          var i :| 0 <= i < |front| && unmarshal(front[i].value) == Decoded(r, None);
          assert kvl[i] == front[i];
        } else {
          assert unmarshal(kvl[n].value) == Decoded(r, None);
        }
      } else {
        forall i | 0 <= i < |kvl|
          ensures unmarshal(kvl[i].value) != Decoded(r, None)
        {
          if i < n {
            assert kvl[i] == front[i];
          }
        }
      }
    }
  }

  /** When every pair decodes, the records come back one per pair, in listing order, and no error is left over. */
  lemma {:induction false} AllDecodable<T>(unmarshal: string -> Decoded<T>, kvl: seq<KV>)
    requires forall i :: 0 <= i < |kvl| ==> unmarshal(kvl[i].value).failure.None?
    ensures |Decodable(unmarshal, kvl)| == |kvl|
    ensures forall i :: 0 <= i < |kvl| ==> Decodable(unmarshal, kvl)[i] == unmarshal(kvl[i].value).value
    ensures LastDecodeError(unmarshal, kvl) == None
    decreases |kvl|
  {
    if kvl != [] {
      var n := |kvl| - 1;
      var front := kvl[..n];
      assert forall i :: 0 <= i < |front| ==> front[i] == kvl[i];
      AllDecodable(unmarshal, front);
    }
  }

  /**
   * A pair that fails to decode goes unreported when the last pair decodes:
   * the scan returns fewer records than pairs and yet no error.
   */
  lemma EarlierDecodeErrorIsOverwritten<T>(unmarshal: string -> Decoded<T>, kvl: seq<KV>, i: nat)
    requires i < |kvl| - 1 && unmarshal(kvl[i].value).failure.Some?
    requires unmarshal(kvl[|kvl| - 1].value).failure.None?
    ensures |Decodable(unmarshal, kvl)| < |kvl|
    ensures LastDecodeError(unmarshal, kvl) == None
  {
    DecodableCount(unmarshal, kvl);
  }

  /** A stored record is among those a scan of the power status range returns. */
  lemma StoredStatusIsScanned(json: JsonCodec, data: map<string, string>, p: PowerStatusComponent)
    requires StatusRoundTrips(json) && json.marshalStatus(p).Success?
    ensures p in Decodable(json.unmarshalStatus,
      Scan(data[StatusRealKey(p.xname) := json.marshalStatus(p).value], ScanLow(), ScanHigh()))
  {
    var k := StatusRealKey(p.xname);
    var data' := data[k := json.marshalStatus(p).value];
    var keys := RangeKeys(data', ScanLow(), ScanHigh());
    var kvl := Scan(data', ScanLow(), ScanHigh());
    StatusKeyInScanRange(p.xname);
    assert k in keys;
    ListingComplete(data', keys, k);
    ListingEntries(data', keys);
    var i :| 0 <= i < |kvl| && kvl[i].key == k;
    assert json.unmarshalStatus(kvl[i].value) == Decoded(p, None);
    DecodableMembers(json.unmarshalStatus, kvl, p);
  }

  /** Once a record's key is deleted, no pair a scan lists carries that key. */
  lemma DeletedStatusIsNotScanned(data: map<string, string>, xname: string)
    ensures forall kv :: kv in Scan(data - {StatusRealKey(xname)}, ScanLow(), ScanHigh()) ==>
      kv.key != StatusRealKey(xname)
  {
    var data' := data - {StatusRealKey(xname)};
    ListingEntries(data', RangeKeys(data', ScanLow(), ScanHigh()));
  }
}

/**
 * The key-value backend behind the storage handle, as the storage layer sees
 * it: a map from real keys to encoded values, listed in key order by range
 * queries. Each operation takes a `fault` argument that says whether the
 * backend reports a failure for this call (None: it succeeds); a failed
 * operation changes nothing.
 */
module Backend {
  import opened Wrappers
  import opened StorageTypes
  import opened KeyOrder

  /** One key-value pair of a range listing. */
  datatype KV = KV(key: string, value: string)

  /** The keys of `data` in the half-open range [lo, hi). */
  function RangeKeys(data: map<string, string>, lo: string, hi: string): (keys: set<string>)
    ensures keys <= data.Keys
  {
    set k | k in data && InRange(k, lo, hi)
  }

  /** The pairs of `data` whose keys are in `keys`, smallest key first. */
  ghost function Listing(data: map<string, string>, keys: set<string>): (kvl: seq<KV>)
    requires keys <= data.Keys
    decreases |keys|
  {
    if keys == {} then []
    else
      var m := MinOf(keys);
      [KV(m, data[m])] + Listing(data, keys - {m})
  }

  /** What a range query over [lo, hi) returns. */
  ghost function Scan(data: map<string, string>, lo: string, hi: string): (kvl: seq<KV>)
  {
    Listing(data, RangeKeys(data, lo, hi))
  }

  /** A listing holds only selected keys, each with its value in `data`, one pair per selected key. */
  lemma {:induction false} ListingEntries(data: map<string, string>, keys: set<string>)
    requires keys <= data.Keys
    ensures |Listing(data, keys)| == |keys|
    ensures forall i :: 0 <= i < |Listing(data, keys)| ==>
      Listing(data, keys)[i].key in keys && Listing(data, keys)[i].value == data[Listing(data, keys)[i].key]
    decreases |keys|
  {
    if keys != {} {
      var m := MinOf(keys);
      ListingEntries(data, keys - {m});
    }
  }

  /** Every selected key appears in the listing. */
  lemma {:induction false} ListingComplete(data: map<string, string>, keys: set<string>, k: string)
    requires keys <= data.Keys && k in keys
    ensures exists i :: 0 <= i < |Listing(data, keys)| && Listing(data, keys)[i].key == k
    decreases |keys|
  {
    var m := MinOf(keys);
    var l := Listing(data, keys);
    assert l[0].key == m;
    if k != m {
      var t := Listing(data, keys - {m});
      ListingComplete(data, keys - {m}, k);
      var i :| 0 <= i < |t| && t[i].key == k;
      assert l[i + 1] == t[i];
    }
  }

  /** A listing is in strictly increasing key order. */
  lemma {:induction false} ListingSorted(data: map<string, string>, keys: set<string>)
    requires keys <= data.Keys
    ensures forall i, j :: 0 <= i < j < |Listing(data, keys)| ==>
      Less(Listing(data, keys)[i].key, Listing(data, keys)[j].key)
    decreases |keys|
  {
    if keys != {} {
      var m := MinOf(keys);
      var rest := keys - {m};
      var t := Listing(data, rest);
      var l := Listing(data, keys);
      ListingSorted(data, rest);
      ListingEntries(data, rest);
      forall i, j | 0 <= i < j < |l|
        ensures Less(l[i].key, l[j].key)
      {
        assert l[j] == t[j - 1];
        if i > 0 {
          assert l[i] == t[i - 1];
        }
      }
    }
  }

  /** The backend connection handle and the contents of the store behind it. */
  class KvHandle {
    var data: map<string, string>

    constructor (contents: map<string, string>)
      ensures data == contents
    {
      data := contents;
    }

    method Store(key: string, value: string, fault: Option<string>) returns (err: Option<Error>)
      modifies this
      ensures fault.None? ==> err == None && data == old(data)[key := value]
      ensures fault.Some? ==> err == Some(Backend(fault.value)) && data == old(data)
    {
      if fault.Some? {
        return Some(Backend(fault.value));
      }
      data := data[key := value];
      err := None;
    }

    /** Reads a key; its absence is reported through `found`, not as an error. */
    method Get(key: string, fault: Option<string>) returns (value: string, found: bool, err: Option<Error>)
      ensures fault.None? ==> err == None && found == (key in data) && (found ==> value == data[key])
      ensures fault.Some? ==> err == Some(Backend(fault.value)) && !found
    {
      if fault.Some? {
        return "", false, Some(Backend(fault.value));
      }
      found := key in data;
      value := if found then data[key] else "";
      err := None;
    }

    /** Removes a key; removing an absent key is not an error. */
    method Delete(key: string, fault: Option<string>) returns (err: Option<Error>)
      modifies this
      ensures fault.None? ==> err == None && data == old(data) - {key}
      ensures fault.Some? ==> err == Some(Backend(fault.value)) && data == old(data)
    {
      if fault.Some? {
        return Some(Backend(fault.value));
      }
      data := data - {key};
      err := None;
    }

    /** Lists the pairs whose keys lie in [lo, hi), in key order. */
    method GetRange(lo: string, hi: string, fault: Option<string>) returns (kvl: seq<KV>, err: Option<Error>)
      ensures fault.None? ==> err == None && kvl == Scan(data, lo, hi)
      ensures fault.Some? ==> err == Some(Backend(fault.value)) && kvl == []
    {
      if fault.Some? {
        return [], Some(Backend(fault.value));
      }
      var all := RangeKeys(data, lo, hi);
      var pending := all;
      kvl := [];
      while pending != {}
        invariant pending <= all
        invariant kvl + Listing(data, pending) == Listing(data, all)
        decreases |pending|
      {
        var m := MinKey(pending);
        assert Listing(data, pending) == [KV(m, data[m])] + Listing(data, pending - {m});
        kvl := kvl + [KV(m, data[m])];
        pending := pending - {m};
      }
      err := None;
    }
  }

  /** Opens a handle on the store at the configured endpoint; `outcome` says whether this attempt fails. */
  method Open(endpoint: KvHandle, outcome: Option<string>) returns (h: KvHandle?, err: Option<Error>)
    ensures outcome.None? ==> h == endpoint && err == None
    ensures outcome.Some? ==> h == null && err == Some(Backend(outcome.value))
  {
    if outcome.Some? {
      return null, Some(Backend(outcome.value));
    }
    h, err := endpoint, None;
  }
}

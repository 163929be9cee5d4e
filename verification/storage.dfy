/**
 * The etcd-backed storage of the power-control service: a connection handle
 * opened with bounded retry, typed store/get/delete under namespaced keys,
 * and the power status repository built on them.
 */
module Storage {
  import opened Wrappers
  import opened StorageTypes
  import opened Keys
  import opened Backend
  import opened RangeScan

  /** How many times Init tries to open the backend. */
  const KvRetriesDefault := 5

  /** The logical key of a liveness probe with the given unique id. */
  function PingKey(id: string): (k: string)
  {
    "/ping/" + id
  }

  /** The real key of a liveness probe: under the prefix, distinct for distinct ids. */
  lemma PingRealKey(id: string)
    ensures FixUpKey(PingKey(id)) == "/pcs/ping/" + id
  {
    var k := PingKey(id);
    assert k[..5] == "/ping" != KeyPrefix;
    assert k[..1] == "/";
    assert k[1..] == "ping/" + id;
  }

  class ETCDStorage {
    /** The JSON library and the xname grammar, both outside this model. */
    const json: JsonCodec
    const isValidXName: string -> bool
    /** The backend handle; null until Init succeeds. */
    var kvHandle: KvHandle?

    constructor (json: JsonCodec, isValidXName: string -> bool)
      ensures this.json == json && this.isValidXName == isValidXName
      ensures kvHandle == null
    {
      this.json := json;
      this.isValidXName := isValidXName;
      kvHandle := null;
    }

    /** Encodes `val` and writes it under the real key; nothing is written when encoding fails. */
    method KvStore<T>(key: string, val: T, marshal: T -> Result<string, string>, fault: Option<string>)
      returns (err: Option<Error>)
      requires kvHandle != null
      modifies kvHandle
      ensures marshal(val).Failure? ==>
        err == Some(Json(marshal(val).error)) && kvHandle.data == old(kvHandle.data)
      ensures marshal(val).Success? && fault.None? ==>
        err == None && kvHandle.data == old(kvHandle.data)[FixUpKey(key) := marshal(val).value]
      ensures marshal(val).Success? && fault.Some? ==>
        err == Some(Backend(fault.value)) && kvHandle.data == old(kvHandle.data)
    {
      var data := marshal(val);
      if data.Success? {
        var realKey := FixUpKey(key);
        err := kvHandle.Store(realKey, data.value, fault);
      } else {
        err := Some(Json(data.error));
      }
    }

    /**
     * Reads and decodes the value under the real key. An absent key that the
     * backend does not report as a failure becomes a "does not exist" error;
     * `zero` is what the caller's variable holds when nothing is decoded.
     */
    method KvGet<T>(key: string, unmarshal: string -> Decoded<T>, zero: T, fault: Option<string>)
      returns (val: T, err: Option<Error>)
      requires kvHandle != null
      ensures var realKey := FixUpKey(key);
        fault.None? && realKey in kvHandle.data ==>
          var d := unmarshal(kvHandle.data[realKey]);
          val == d.value && err == AsJsonError(d.failure)
      ensures fault.None? && FixUpKey(key) !in kvHandle.data ==>
        val == zero && err == Some(KeyDoesNotExist(key))
      ensures fault.Some? ==> val == zero && err == Some(Backend(fault.value))
    {
      val := zero;
      var realKey := FixUpKey(key);
      var v, found, e := kvHandle.Get(realKey, fault);
      err := e;
      if found {
        var d := unmarshal(v);
        val, err := d.value, AsJsonError(d.failure);
      } else if err == None {
        err := Some(KeyDoesNotExist(key));
      }
    }

    /** Removes the real key; removing an absent key succeeds and changes nothing. */
    method KvDelete(key: string, fault: Option<string>) returns (err: Option<Error>)
      requires kvHandle != null
      modifies kvHandle
      ensures fault.None? ==> err == None && kvHandle.data == old(kvHandle.data) - {FixUpKey(key)}
      ensures fault.None? && FixUpKey(key) !in old(kvHandle.data) ==> kvHandle.data == old(kvHandle.data)
      ensures fault.Some? ==> err == Some(Backend(fault.value)) && kvHandle.data == old(kvHandle.data)
    {
      var realKey := FixUpKey(key);
      err := kvHandle.Delete(realKey, fault);
    }

    /**
     * Connects to the backend. `host` and `port` are the ETCD_HOST and
     * ETCD_PORT settings, `endpoint` the store they name, and `openOutcome(ix)`
     * whether open attempt number ix fails. `attempts` counts the attempts made.
     */
    method Init(host: Option<string>, port: Option<string>, endpoint: KvHandle, openOutcome: nat -> Option<string>)
      returns (err: Option<Error>, ghost attempts: nat)
      modifies this
      ensures host.None? ==> err == Some(NoEtcdHost) && kvHandle == null && attempts == 0
      ensures host.Some? && port.None? ==> err == Some(NoEtcdPort) && kvHandle == null && attempts == 0
      ensures host.Some? && port.Some? ==>
        && 1 <= attempts <= KvRetriesDefault
        && (forall ix :: 1 <= ix < attempts ==> openOutcome(ix).Some?)
        && (if openOutcome(attempts).None?
            then err == None && kvHandle == endpoint
            else attempts == KvRetriesDefault && err == Some(ConnectionAttemptsExhausted) && kvHandle == null)
    {
      var retries := KvRetriesDefault;
      if host.None? {
        kvHandle := null;
        return Some(NoEtcdHost), 0;
      }
      if port.None? {
        kvHandle := null;
        return Some(NoEtcdPort), 0;
      }
      var etcOK := false;
      attempts := 0;
      var ix := 1;
      while ix <= retries
        invariant 1 <= ix <= retries + 1
        invariant !etcOK && attempts == ix - 1
        invariant forall j :: 1 <= j < ix ==> openOutcome(j).Some?
      {
        var kverr;
        kvHandle, kverr := Open(endpoint, openOutcome(ix));
        attempts := ix;
        if kverr == None {
          etcOK := true;
          break;
        }
        ix := ix + 1;
      }
      if !etcOK {
        kvHandle := null;
        return Some(ConnectionAttemptsExhausted), attempts;
      }
      err := None;
    }

    /**
     * Liveness probe: stores an empty text under a key unique to `id`, then
     * deletes it, the delete being attempted only if the store succeeded.
     */
    method Ping(id: string, storeFault: Option<string>, deleteFault: Option<string>)
      returns (err: Option<Error>, ghost deleteAttempted: bool)
      requires kvHandle != null
      modifies kvHandle
      ensures var enc := json.marshalText("");
        deleteAttempted <==> enc.Success? && storeFault.None?
      ensures var enc := json.marshalText("");
        enc.Failure? ==> err == Some(Json(enc.error)) && kvHandle.data == old(kvHandle.data)
      ensures json.marshalText("").Success? && storeFault.Some? ==>
        err == Some(Backend(storeFault.value)) && kvHandle.data == old(kvHandle.data)
      ensures deleteAttempted && deleteFault.Some? ==>
        err == Some(Backend(deleteFault.value)) &&
        kvHandle.data == old(kvHandle.data)["/pcs/ping/" + id := json.marshalText("").value]
      ensures deleteAttempted && deleteFault.None? ==>
        err == None && kvHandle.data == old(kvHandle.data) - {"/pcs/ping/" + id}
      ensures deleteAttempted && deleteFault.None? && "/pcs/ping/" + id !in old(kvHandle.data) ==>
        kvHandle.data == old(kvHandle.data)
    {
      var key := PingKey(id);
      PingRealKey(id);
      err := KvStore(key, "", json.marshalText, storeFault);
      deleteAttempted := false;
      if err == None {
        deleteAttempted := true;
        err := KvDelete(key, deleteFault);
      }
    }

    /** Stores a record under its component's key, after checking the xname. */
    method StorePowerStatus(p: PowerStatusComponent, fault: Option<string>) returns (err: Option<Error>)
      requires isValidXName(p.xname) ==> kvHandle != null
      modifies kvHandle
      ensures !isValidXName(p.xname) ==> err == Some(InvalidXName(p.xname))
      ensures !isValidXName(p.xname) && kvHandle != null ==> kvHandle.data == old(kvHandle.data)
      ensures isValidXName(p.xname) ==>
        var enc := json.marshalStatus(p);
        && (enc.Failure? ==> err == Some(Json(enc.error)) && kvHandle.data == old(kvHandle.data))
        && (enc.Success? && fault.None? ==>
              err == None && kvHandle.data == old(kvHandle.data)[StatusRealKey(p.xname) := enc.value])
        && (enc.Success? && fault.Some? ==>
              err == Some(Backend(fault.value)) && kvHandle.data == old(kvHandle.data))
    {
      if !isValidXName(p.xname) {
        return Some(InvalidXName(p.xname));
      }
      var key := StatusKey(p.xname);
      err := KvStore(key, p, json.marshalStatus, fault);
    }

    /** Deletes a component's record, after checking the xname. */
    method DeletePowerStatus(xname: string, fault: Option<string>) returns (err: Option<Error>)
      requires isValidXName(xname) ==> kvHandle != null
      modifies kvHandle
      ensures !isValidXName(xname) ==> err == Some(InvalidXName(xname))
      ensures !isValidXName(xname) && kvHandle != null ==> kvHandle.data == old(kvHandle.data)
      ensures isValidXName(xname) && fault.None? ==>
        err == None && kvHandle.data == old(kvHandle.data) - {StatusRealKey(xname)}
      ensures isValidXName(xname) && fault.Some? ==>
        err == Some(Backend(fault.value)) && kvHandle.data == old(kvHandle.data)
    {
      if !isValidXName(xname) {
        return Some(InvalidXName(xname));
      }
      var key := StatusKey(xname);
      err := KvDelete(key, fault);
    }

    /** Reads a component's record, after checking the xname; a failure leaves the zero record. */
    method GetPowerStatus(xname: string, fault: Option<string>) returns (pcomp: PowerStatusComponent, err: Option<Error>)
      requires isValidXName(xname) ==> kvHandle != null
      ensures !isValidXName(xname) ==> pcomp == ZeroComponent && err == Some(InvalidXName(xname))
      ensures isValidXName(xname) && fault.None? && StatusRealKey(xname) in kvHandle.data ==>
        var d := json.unmarshalStatus(kvHandle.data[StatusRealKey(xname)]);
        pcomp == d.value && err == AsJsonError(d.failure)
      ensures isValidXName(xname) && fault.None? && StatusRealKey(xname) !in kvHandle.data ==>
        pcomp == ZeroComponent && err == Some(KeyDoesNotExist(StatusKey(xname)))
      ensures isValidXName(xname) && fault.Some? ==>
        pcomp == ZeroComponent && err == Some(Backend(fault.value))
    {
      pcomp := ZeroComponent;
      if !isValidXName(xname) {
        return pcomp, Some(InvalidXName(xname));
      }
      var key := StatusKey(xname);
      pcomp, err := KvGet(key, json.unmarshalStatus, pcomp, fault);
    }

    /**
     * Lists every power status record: the pairs of the scan range in key
     * order, keeping those that decode. The error returned is the range
     * query's failure, or else the decode error of the last pair.
     */
    method GetAllPowerStatus(fault: Option<string>) returns (pstats: PowerStatus, err: Option<Error>)
      requires kvHandle != null
      ensures fault.Some? ==> pstats.status == [] && err == Some(Backend(fault.value))
      ensures fault.None? ==>
        var kvl := Scan(kvHandle.data, ScanLow(), ScanHigh());
        pstats.status == Decodable(json.unmarshalStatus, kvl) &&
        err == LastDecodeError(json.unmarshalStatus, kvl)
    {
      var k := FixUpKey(KeySegPowerState);
      var kvl;
      kvl, err := kvHandle.GetRange(k + KeyMin, k + KeyMax, fault);
      var status: seq<PowerStatusComponent> := [];
      if err == None {
        var i := 0;
        while i < |kvl|
          invariant 0 <= i <= |kvl|
          invariant status == Decodable(json.unmarshalStatus, kvl[..i])
          invariant err == LastDecodeError(json.unmarshalStatus, kvl[..i])
        {
          var d := json.unmarshalStatus(kvl[i].value);
          err := AsJsonError(d.failure);
          if err == None {
            status := status + [d.value];
          }
          assert kvl[..i + 1][..i] == kvl[..i];
          i := i + 1;
        }
        assert kvl[..|kvl|] == kvl;
      }
      pstats := PowerStatus(status);
    }
  }
}

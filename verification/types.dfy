/**
 * The values the power-control storage layer handles: its errors, the power
 * status record and the JSON library it serialises records with.
 */
module StorageTypes {
  import opened Wrappers

  /** Every error the storage layer returns, by where it arises. */
  datatype Error =
    | NoEtcdHost                     // ETCD_HOST is not set
    | NoEtcdPort                     // ETCD_PORT is not set
    | ConnectionAttemptsExhausted    // every open attempt failed
    | KeyDoesNotExist(key: string)   // names the key as the caller gave it, before namespacing
    | InvalidXName(xname: string)    // the component identifier fails the xname grammar
    | Json(reason: string)           // the JSON library failed to encode or decode
    | Backend(reason: string)        // the key-value backend reported a failure

  /** One hardware component's power and management status. */
  datatype PowerStatusComponent = PowerStatusComponent(
    xname: string,
    powerState: string,
    managementState: string,
    error: string,
    supportedPowerTransitions: seq<string>,
    lastUpdated: string)

  /** The zero value of the record: what a freshly declared record holds. */
  const ZeroComponent := PowerStatusComponent("", "", "", "", [], "")

  /** The collection GetAllPowerStatus returns, in backend key order. */
  datatype PowerStatus = PowerStatus(status: seq<PowerStatusComponent>)

  /**
   * What decoding a JSON text into a freshly declared value yields: the value
   * as far as it was filled in, and the decoder's reason for failing if it did.
   */
  datatype Decoded<T> = Decoded(value: T, failure: Option<string>)

  /** The storage layer's error for a decoder outcome: none, or a JSON error with the decoder's reason. */
  function AsJsonError(failure: Option<string>): (err: Option<Error>)
    ensures err.None? <==> failure.None?
    ensures failure.Some? ==> err == Some(Json(failure.value))
  {
    match failure
    case None => None
    case Some(reason) => Some(Json(reason))
  }

  /** The JSON library, as the storage layer uses it; an encoder failure carries its reason. */
  datatype JsonCodec = JsonCodec(
    marshalText: string -> Result<string, string>,
    marshalStatus: PowerStatusComponent -> Result<string, string>,
    unmarshalStatus: string -> Decoded<PowerStatusComponent>)

  /** Decoding an encoded record gives the record back, without error. */
  ghost predicate StatusRoundTrips(json: JsonCodec)
  {
    forall p :: json.marshalStatus(p).Success? ==>
      json.unmarshalStatus(json.marshalStatus(p).value) == Decoded(p, None)
  }
}

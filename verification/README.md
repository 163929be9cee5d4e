# Power-control storage layer, modelled in Dafny

This project models the etcd-backed storage layer of the power-control
service (`ETCDStorage`). It covers:

- key namespacing under `/pcs/`;
- typed store, get and delete of JSON-encoded values over a string-to-string
  backend;
- connection bootstrap with at most five open attempts;
- the write-then-delete liveness probe;
- the power status repository: per-component store, get and delete, checked
  against the xname grammar, and a range scan that rebuilds the whole
  collection.

Layout, one module per component:

- `wrappers.dfy` (`Wrappers`): `Option` and `Result`. `None` stands for Go's
  `nil` error.
- `key_order.dfy` (`KeyOrder`): the backend's key order, a lexicographic
  `Less`. It is proved a strict total order. `MinOf` and `MinKey` pick the
  smallest key of a set.
- `types.dfy` (`StorageTypes`): the errors, the `PowerStatusComponent`
  record, and the JSON library as a value `JsonCodec` with its round-trip
  assumption `StatusRoundTrips`.
- `keys.dfy` (`Keys`): `FixUpKey`, the record key `/powerstate/<xname>` and
  the scan bounds `/pcs/powerstate ` and `/pcs/powerstate~`.
- `backend.dfy` (`Backend`): the hmetcd handle as a class `KvHandle` over a
  `map<string, string>`. `Scan` is the ordered listing that a range query
  returns.
- `range_scan.dfy` (`RangeScan`): `Decodable` and `LastDecodeError`. They say
  what `GetAllPowerStatus` returns for a listing.
- `storage.dfy` (`Storage`): the class `ETCDStorage` with every operation of
  the core.
- `scenarios.dfy` (`Scenarios`): sequences of calls, and what callers can
  conclude from the contracts alone.

Each backend call takes a `fault: Option<string>` argument. It says whether
the backend reports a failure for that call. `Init` takes the outcome of each
open attempt as a function `openOutcome` from the attempt number.

Behaviour of the code worth knowing, all of it modelled as written:

- `Init` has no in-memory fallback. The in-memory default `kvUrlDefault`
  (storage_etcd_impl.go:44) is never used, and a missing `ETCD_HOST` is an
  error (storage_etcd_impl.go:119-123).
- On a partial decode, `GetPowerStatus` returns the partly filled record
  together with the decode error (storage_etcd_impl.go:91, 196).
- `GetAllPowerStatus` returns the decode error of the last pair only, because
  `err` is reassigned for every pair (storage_etcd_impl.go:206). An
  undecodable record followed by a decodable one is skipped without any
  error (`RangeScan.EarlierDecodeErrorIsOverwritten`).

## Model

| member | source | states |
|---|---|---|
| Keys.FixUpKey | internal/storage/storage_etcd_impl.go:58-69 | the real key always begins with `/pcs/`; a key that already does comes back unchanged |
| Keys.FixUpKeyIdempotent | internal/storage/storage_etcd_impl.go:58-69 | namespacing an already namespaced key changes nothing |
| Keys.FixUpKeyDropsOneSlash | internal/storage/storage_etcd_impl.go:60-66 | a key not starting with `/` gets the prefix in front of it whole; a key `/a` with `a` not starting with `pcs/` loses exactly that one leading slash and nothing else, so `//a` becomes `/pcs//a` |
| Keys.StatusRealKey | internal/storage/storage_etcd_impl.go:165 | a component's record lives under the real key `/pcs/powerstate/<xname>` |
| Keys.StatusKeysDistinct | internal/storage/storage_etcd_impl.go:165 | distinct xnames give distinct real keys, so at most one record exists per xname |
| Keys.StatusKeyInScanRange | internal/storage/storage_etcd_impl.go:201-202 | every record key lies in the scanned range [`/pcs/powerstate `, `/pcs/powerstate~`) |
| Backend.ListingEntries | internal/storage/storage_etcd_impl.go:202 | a range listing holds one pair per key in range, each with the key's stored value |
| Backend.ListingComplete | internal/storage/storage_etcd_impl.go:202 | every key in range appears in the listing |
| Backend.ListingSorted | internal/storage/storage_etcd_impl.go:202 | the listing is in strictly increasing key order |
| Backend.KvHandle.GetRange | internal/storage/storage_etcd_impl.go:202 | the range query returns exactly the sorted listing of the pairs in [lo, hi), or an empty list and the backend error |
| Storage.ETCDStorage.KvStore | internal/storage/storage_etcd_impl.go:73-82 | an encoding failure is returned and the backend is unchanged; otherwise only the real key changes, to the encoded value, or a backend failure is returned and nothing changes |
| Storage.ETCDStorage.KvGet | internal/storage/storage_etcd_impl.go:84-97 | a present key yields its decoded value and the decode error; an absent key without backend error yields "Key … does not exist" naming the caller's key; a backend failure is returned as is; the backend is never modified |
| Storage.ETCDStorage.KvDelete | internal/storage/storage_etcd_impl.go:99-106 | only the real key is removed; deleting an absent key succeeds and changes nothing |
| Storage.ETCDStorage.Init | internal/storage/storage_etcd_impl.go:108-149 | missing host or port: its own error, no open attempt, nil handle; otherwise 1 to 5 attempts, stopping at the first success, which installs the handle; five failures leave a nil handle and the exhausted error |
| Storage.PingRealKey | internal/storage/storage_etcd_impl.go:153 | the probe key is `/pcs/ping/<id>` |
| Storage.ETCDStorage.Ping | internal/storage/storage_etcd_impl.go:151-159 | the delete is attempted exactly when the store succeeded; when both succeed on a fresh id the backend ends as it started; each failure is returned with the state it leaves |
| Storage.ETCDStorage.StorePowerStatus | internal/storage/storage_etcd_impl.go:161-171 | an invalid xname is rejected naming it, before the backend is touched (it may even be unset); a valid one is stored under `/pcs/powerstate/<xname>` with the outcomes of KvStore |
| Storage.ETCDStorage.DeletePowerStatus | internal/storage/storage_etcd_impl.go:173-183 | an invalid xname is rejected without backend access; a valid one removes exactly its record key, absent or not |
| Storage.ETCDStorage.GetPowerStatus | internal/storage/storage_etcd_impl.go:185-197 | an invalid xname gives the zero record and an error; a valid one reads its record key with the outcomes of KvGet |
| Storage.ETCDStorage.GetAllPowerStatus | internal/storage/storage_etcd_impl.go:199-217 | a failed range query gives an empty collection and that error; otherwise the records that decode, in key order, and the decode error of the last pair |
| RangeScan.DecodableCount | internal/storage/storage_etcd_impl.go:204-212 | no more records than pairs in range, and exactly as many iff every pair decodes |
| RangeScan.DecodableMembers | internal/storage/storage_etcd_impl.go:204-212 | a record is returned iff some pair in range decodes to it without error |
| RangeScan.AllDecodable | internal/storage/storage_etcd_impl.go:199-217 | when every pair decodes, the i-th record is the decode of the i-th pair and there is no error |
| RangeScan.EarlierDecodeErrorIsOverwritten | internal/storage/storage_etcd_impl.go:204-216 | a corrupt pair followed by a good last pair is dropped with no error returned |
| RangeScan.StoredStatusIsScanned | internal/storage/storage_etcd_impl.go:161-217 | given the JSON round trip, a record just stored is among those the scan returns |
| RangeScan.DeletedStatusIsNotScanned | internal/storage/storage_etcd_impl.go:173-202 | after deleting a record key, no pair the scan lists carries that key |
| Scenarios.StoreThenGet | internal/storage/storage_etcd_impl.go:161-197 | storing a record with a valid xname and reading that xname back yields the same record without error |
| Scenarios.StoreThenGetAll | internal/storage/storage_etcd_impl.go:161-217 | a stored record is in the collection GetAllPowerStatus returns |
| Scenarios.DeleteThenGet | internal/storage/storage_etcd_impl.go:173-197 | after a delete, a get reports that the key does not exist and returns the zero record |
| Scenarios.InvalidXNameIsRejected | internal/storage/storage_etcd_impl.go:161-197 | store, get and delete all return the invalid-xname error and leave the backend unchanged |

## Left out

- The mutex (lines 54, 74-75, 85-86, 101-102, 117): the model is sequential, so every operation is already exclusive.
- Logging through logrus, and the default logger of `Init`: side effects only.
- `os.LookupEnv` and the `http://host:port` URL: host and port are optional inputs, and the store they name is the `endpoint` argument.
- hmetcd internals (`Open`, `Store`, `Get`, `Delete`, `GetRange`): the backend is a map with a failure oracle per call. A failed backend call is assumed to change nothing. The modelled backend never reports a key as found together with an error; `KvGet` still follows the code's branches for that case.
- `json.Marshal` and `json.Unmarshal`: a library whose code is not part of this model. It is the `JsonCodec` value given to the storage object. Its failures carry a reason string, which the storage layer returns as a `Json` error. Unmarshal is modelled as decoding into a freshly declared value, which is what both callers pass. The round trip `StatusRoundTrips` is an assumption of the lemmas that need it. `json.Marshal("")`, used by `Ping`, is an abstract `marshalText` as well.
- `xnametypes.IsHMSCompIDValid`: a grammar that is not part of this model. It is the predicate `isValidXName` given to the storage object.
- `uuid.New()` in `Ping`: the probe id is a parameter. Its uniqueness is the hypothesis "fresh id" of Ping's last ensures.
- Calling an operation before a successful `Init`: Go dereferences a nil handle. The model requires a handle instead, except where the code never touches it (an invalid xname).
- Key order: keys are compared by character code point. This matches etcd's byte order for UTF-8 keys.
- The record type `PowerStatusComponent` is defined in a file that is not part of this model. Its fields are modelled as strings and one sequence of strings.

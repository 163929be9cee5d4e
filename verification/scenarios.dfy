/**
 * Sequences of repository calls and what callers can conclude from the
 * operations' contracts alone: a stored record reads back and is listed, a
 * deleted one is gone.
 */
module Scenarios {
  import opened Wrappers
  import opened StorageTypes
  import opened Keys
  import opened Backend
  import opened RangeScan
  import opened Storage

  /** Storing a record and reading its xname back yields the same record, without error. */
  method StoreThenGet(s: ETCDStorage, p: PowerStatusComponent) returns (got: PowerStatusComponent, err: Option<Error>)
    requires s.kvHandle != null && s.isValidXName(p.xname)
    requires StatusRoundTrips(s.json) && s.json.marshalStatus(p).Success?
    modifies s.kvHandle
    ensures got == p && err == None
  {
    var stored := s.StorePowerStatus(p, None);
    got, err := s.GetPowerStatus(p.xname, None);
  }

  /** After a record is stored, listing every record returns it. */
  method StoreThenGetAll(s: ETCDStorage, p: PowerStatusComponent) returns (all: PowerStatus, err: Option<Error>)
    requires s.kvHandle != null && s.isValidXName(p.xname)
    requires StatusRoundTrips(s.json) && s.json.marshalStatus(p).Success?
    modifies s.kvHandle
    ensures p in all.status
  {
    var stored := s.StorePowerStatus(p, None);
    all, err := s.GetAllPowerStatus(None);
    StoredStatusIsScanned(s.json, old(s.kvHandle.data), p);
  }

  /** After a record is deleted, reading its xname reports that the key does not exist. */
  method DeleteThenGet(s: ETCDStorage, xname: string) returns (got: PowerStatusComponent, err: Option<Error>)
    requires s.kvHandle != null && s.isValidXName(xname)
    modifies s.kvHandle
    ensures got == ZeroComponent && err == Some(KeyDoesNotExist(StatusKey(xname)))
  {
    var deleted := s.DeletePowerStatus(xname, None);
    got, err := s.GetPowerStatus(xname, None);
  }

  /** Store, get and delete reject an invalid xname without touching the backend. */
  method InvalidXNameIsRejected(s: ETCDStorage, p: PowerStatusComponent) returns (e1: Option<Error>, e2: Option<Error>, e3: Option<Error>)
    requires s.kvHandle != null && !s.isValidXName(p.xname)
    modifies s.kvHandle
    ensures e1 == e2 == e3 == Some(InvalidXName(p.xname))
    ensures s.kvHandle.data == old(s.kvHandle.data)
  {
    e1 := s.StorePowerStatus(p, None);
    var got;
    got, e2 := s.GetPowerStatus(p.xname, None);
    e3 := s.DeletePowerStatus(p.xname, None);
  }
}

/** server/app/usb_devices.py: what `usbip list -l` and sysfs say about the devices plugged in. */
module Devices {
  import opened Text

  datatype Status = Unshared | SharedIdle | SharedInUse | Unknown

  /** `serial` is empty for a device that reports none. */
  datatype Device = Device(busid: string, serial: string, status: Status, title: string)

  type Scan = seq<Device>

  /** `{d.busid: d for d in ...}.get(busid)`: the last one listed wins. */
  function ByBusid(scan: Scan, busid: string): (d: Option<Device>)
    ensures d.Some? ==> d.value in scan && d.value.busid == busid
    ensures d.None? ==> forall e :: e in scan ==> e.busid != busid
  {
    if scan == [] then None
    else
      var last := scan[|scan| - 1];
      if last.busid == busid then Some(last) else ByBusid(scan[..|scan| - 1], busid)
  }

  /** `{d.serial: d for d in ... if d.serial}.get(serial)` */
  function BySerial(scan: Scan, serial: string): (d: Option<Device>)
    requires serial != ""
    ensures d.Some? ==> d.value in scan && d.value.serial == serial
    ensures d.None? ==> forall e :: e in scan ==> e.serial != serial
  {
    if scan == [] then None
    else
      var last := scan[|scan| - 1];
      if last.serial == serial then Some(last) else BySerial(scan[..|scan| - 1], serial)
  }

  predicate IsShared(s: Status) {
    s.SharedIdle? || s.SharedInUse?
  }

  predicate SharedIn(scan: Scan, busid: string) {
    var d := ByBusid(scan, busid);
    d.Some? && IsShared(d.value.status)
  }

  /** Entry `i` is the last that the listing has at `busid`. */
  ghost predicate LastAt(scan: Scan, busid: string, i: int) {
    0 <= i < |scan| && scan[i].busid == busid && forall j :: i < j < |scan| ==> scan[j].busid != busid
  }

  /** The listing shows a device at `busid`, and the last it shows there is bound, idle or in use. */
  ghost predicate ShownShared(scan: Scan, busid: string) {
    exists i :: LastAt(scan, busid, i) && (scan[i].status == SharedIdle || scan[i].status == SharedInUse)
  }

  lemma {:induction false} LastListed(scan: Scan, busid: string)
    ensures forall i :: LastAt(scan, busid, i) ==> ByBusid(scan, busid) == Some(scan[i])
    ensures ByBusid(scan, busid).Some? ==> exists i :: LastAt(scan, busid, i)
  {
    if scan != [] {
      var init := scan[..|scan| - 1];
      if scan[|scan| - 1].busid == busid {
        assert LastAt(scan, busid, |scan| - 1);
      } else {
        LastListed(init, busid);
        forall i
          ensures LastAt(scan, busid, i) <==> LastAt(init, busid, i)
        {
          assert forall j :: 0 <= j < |init| ==> init[j] == scan[j];
        }
      }
    }
  }

  lemma SharedExactlyIfShown(scan: Scan, busid: string)
    ensures SharedIn(scan, busid) <==> ShownShared(scan, busid)
  {
    LastListed(scan, busid);
  }

  /** One device per busid, and no serial on two devices. */
  ghost predicate Distinct(scan: Scan) {
    && (forall d, e :: d in scan && e in scan && d.busid == e.busid ==> d == e)
    && (forall d, e :: d in scan && e in scan && d.serial == e.serial && d.serial != "" ==> d == e)
  }

  /** The same devices at the same places; only the sharing state and labels may differ. */
  ghost predicate SamePlaces(a: Scan, b: Scan) {
    |a| == |b| && forall i :: 0 <= i < |a| ==> a[i].busid == b[i].busid && a[i].serial == b[i].serial
  }

  /** A serial is read at one busid only. */
  ghost predicate UniqueSerials(scan: Scan) {
    forall d, e :: d in scan && e in scan && d.serial == e.serial && d.serial != "" ==> d.busid == e.busid
  }

  lemma SamePlacesUnique(a: Scan, b: Scan)
    requires SamePlaces(a, b) && UniqueSerials(a)
    ensures UniqueSerials(b)
  {
    forall d, e | d in b && e in b && d.serial == e.serial && d.serial != ""
      ensures d.busid == e.busid
    {
      var i :| 0 <= i < |b| && b[i] == d;
      var j :| 0 <= j < |b| && b[j] == e;
      assert a[i] in a && a[j] in a;
    }
  }

  lemma {:induction false} SamePlacesLookup(a: Scan, b: Scan, key: string)
    requires SamePlaces(a, b)
    ensures ByBusid(a, key).Some? == ByBusid(b, key).Some?
    ensures ByBusid(a, key).Some? ==> ByBusid(a, key).value.serial == ByBusid(b, key).value.serial
    ensures key != "" ==> BySerial(a, key).Some? == BySerial(b, key).Some?
    ensures key != "" && BySerial(a, key).Some? ==> BySerial(a, key).value.busid == BySerial(b, key).value.busid
  {
    if a != [] {
      SamePlacesLookup(a[..|a| - 1], b[..|b| - 1], key);
    }
  }

  // ------------------------------------------------- the driver's bind and unbind

  /** `usbip bind`: None is the command failing. */
  function Bind(s: Status): Option<Status> {
    if IsShared(s) then None else Some(SharedIdle)
  }

  /** `usbip unbind`: only a bound device can be unbound, in use or not. */
  function Unbind(s: Status): Option<Status> {
    if IsShared(s) then Some(Unshared) else None
  }

  /** `api_rebind`: unbind then bind; the first failure ends it. */
  function Rebind(s: Status): (Status, bool) {
    match Unbind(s)
    case None => (s, false)
    case Some(t) => match Bind(t)
      case None => (t, false)
      case Some(u) => (u, true)
  }

  /** A rebind succeeds on exactly the shared devices, and clears an export whoever holds it. */
  lemma RebindClearsTheExport(s: Status)
    ensures Rebind(s) == if IsShared(s) then (SharedIdle, true) else (s, false)
  {
  }
}

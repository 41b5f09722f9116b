/** Concrete resolutions over a small snapshot shaped like the captured
    test data: one adapter, one device below it, one GATT service below
    that. */
module DbusToolsExamples {
  import opened Wrappers
  import opened Text
  import opened DbusTools

  const AdapterAddress := "00:00:00:00:5A:AD"
  const DeviceAddress := "F7:17:E4:09:C0:C6"
  const ServiceUuid := "e95df2d8-251d-470a-a062-fa1922dfa9a8"

  const AdapterPath := "/org/bluez/hci0"
  const DevicePath := "/org/bluez/hci0/dev_F7_17_E4_09_C0_C6"
  const ServicePath := "/org/bluez/hci0/dev_F7_17_E4_09_C0_C6/service0031"

  function Sample(): Snapshot {
    [ Entry("/org/bluez", Some(map["org.bluez.AgentManager1" := map[]])),
      Entry(AdapterPath, Some(map[AdapterIface := map["Address" := AdapterAddress]])),
      Entry(DevicePath, Some(map[DeviceIface := map["Address" := DeviceAddress]])),
      Entry(ServicePath, Some(map[GattServiceIface := map["UUID" := ServiceUuid]])) ]
  }

  lemma AdapterFound()
    ensures FindPath(Sample(), Some(BluezRoot), AdapterIface, "Address", AdapterAddress) == Success(AdapterPath)
  {
    assert StartsWith(AdapterPath, BluezRoot);
    FindPathReturnsFirst(Sample(), Some(BluezRoot), AdapterIface, "Address", AdapterAddress, 1);
  }

  lemma DeviceFound()
    ensures FindPath(Sample(), Some(AdapterPath), DeviceIface, "Address", DeviceAddress) == Success(DevicePath)
  {
    assert StartsWith(DevicePath, AdapterPath);
    FindPathReturnsFirst(Sample(), Some(AdapterPath), DeviceIface, "Address", DeviceAddress, 2);
  }

  /** Resolving an adapter gives its path. */
  lemma ResolveAdapter()
    ensures GetDbusPath(Sample(), Some(AdapterAddress), None, None, None, None) == Success(Some(AdapterPath))
  {
    AdapterFound();
    GetDbusPathSteps(Sample(), Some(AdapterAddress), None, None, None, None);
  }

  lemma UpperOfLowerAddress()
    ensures Upper("f7:17:e4:09:c0:c6") == DeviceAddress
  {
    var u := Upper("f7:17:e4:09:c0:c6");
    assert |u| == |DeviceAddress|;
    forall i | 0 <= i < |u|
      ensures u[i] == DeviceAddress[i]
    {
    }
  }

  /** The device lookup matches an address written in lower case. */
  lemma DeviceFoundLowerCase()
    ensures FindPath(Sample(), Some(AdapterPath), DeviceIface, "Address", "f7:17:e4:09:c0:c6") == Success(DevicePath)
  {
    DeviceFound();
    UpperOfLowerAddress();
    FindPathUpperCase(Sample(), Some(AdapterPath), DeviceIface, "Address", "f7:17:e4:09:c0:c6");
  }

  /** Resolving adapter and device, with the device address in lower case. */
  lemma ResolveDeviceAnyCase()
    ensures GetDbusPath(Sample(), Some(AdapterAddress), Some("f7:17:e4:09:c0:c6"), None, None, None)
         == Success(Some(DevicePath))
  {
    AdapterFound();
    DeviceFoundLowerCase();
    GetDbusPathSteps(Sample(), Some(AdapterAddress), Some("f7:17:e4:09:c0:c6"), None, None, None);
  }

  /** A device and service without their adapter are never found: the
      device is searched with no scope, and no scope matches nothing. */
  lemma DeviceWithoutAdapterFails()
    ensures GetDbusPath(Sample(), None, Some(DeviceAddress), Some(ServiceUuid), None, None) == Failure(NotFound)
  {
    GetDbusPathSteps(Sample(), None, Some(DeviceAddress), Some(ServiceUuid), None, None);
    assert forall i :: 0 <= i < |Sample()| ==> Passes(Sample()[i], None, DeviceIface, "Address", DeviceAddress);
  }

  /** An adapter address the snapshot does not hold fails the whole call. */
  lemma UnknownAdapterFails()
    ensures GetDbusPath(Sample(), Some("00:00:00:00:5A:C6"), Some("F7:17:E4:09:C0:XX"), Some(ServiceUuid), None, None)
         == Failure(NotFound)
  {
    assert Lower(AdapterAddress)[15] != Lower("00:00:00:00:5A:C6")[15];
    assert forall i :: 0 <= i < |Sample()| ==>
      Passes(Sample()[i], Some(BluezRoot), AdapterIface, "Address", "00:00:00:00:5A:C6");
    GetDbusPathSteps(Sample(), Some("00:00:00:00:5A:C6"), Some("F7:17:E4:09:C0:XX"), Some(ServiceUuid), None, None);
  }

  /** The scope test is a raw prefix test: an object below `hci10` lies in
      the scope of `hci1`. */
  lemma PrefixIsNotSegmentAware()
    ensures var objs := [Entry("/org/bluez/hci10/dev_X", Some(map[DeviceIface := map["Address" := "X"]]))];
      FindPath(objs, Some("/org/bluez/hci1"), DeviceIface, "Address", "X") == Success("/org/bluez/hci10/dev_X")
  {
    var objs := [Entry("/org/bluez/hci10/dev_X", Some(map[DeviceIface := map["Address" := "X"]]))];
    assert StartsWith("/org/bluez/hci10/dev_X", "/org/bluez/hci1");
    FindPathReturnsFirst(objs, Some("/org/bluez/hci1"), DeviceIface, "Address", "X", 0);
  }
}

# bluezero object-path resolution, adapter enumeration and the observer's device table

A Dafny model of three parts of python-bluezero, a Python library that
drives the BlueZ Bluetooth stack over D-Bus:

- **Object-path resolution** (`bluezero/dbus_tools.py`). `_get_dbus_path2`
  scans a snapshot of BlueZ's managed objects. It returns the first object
  that meets four conditions: the object carries the wanted interface; that
  interface's property equals the wanted value, ignoring letter case; a
  parent scope is given; and the object's path starts with it.
  `get_dbus_path` and `get_profile_path` chain these scans. The adapter is
  looked up under `/org/bluez`. Each deeper identifier is looked up under
  the path found for the one before it. `get_iface` names the interface of
  the deepest identifier supplied.
- **Adapter enumeration and the discovery countdown**
  (`bluezero/adapter.py`). `list_adapters` collects the `Address` of every
  object that carries `org.bluez.Adapter1`, in snapshot order.
  `default_adapter` takes the first of them. The one-second timer callback
  `_discovering_timeout` counts up to the timeout that `nearby_discovery`
  sets, then stops discovery and quits the main loop.
- **The observer example** (`examples/observer.py`). `path_to_addr`
  applies the regular expression `dev_\S+?(?=\/|$)` to an object path and
  turns the match into a colon-separated address. `Observer.intf_added`
  adds a device for that address unless one is already known.

Modules:

| file | module | contents |
|---|---|---|
| `wrappers.dfy` | `Wrappers` | `Option` and `Result`, the latter usable with `:-` |
| `text.dfy` | `Text` | ASCII `lower()`/`upper()`, `startswith`, `str.replace` on one character |
| `dbus_tools.dfy` | `DbusTools` | the snapshot, the scan, the identifier chain, `get_iface` |
| `dbus_tools_examples.dfy` | `DbusToolsExamples` | resolutions over a small snapshot shaped like the captured test data |
| `adapter.dfy` | `Adapter` | `list_adapters`, `default_adapter`, the discovery countdown |
| `observer.dfy` | `Observer` | the regular expression of `path_to_addr`, the round trip, `intf_added` |

The snapshot that `get_managed_objects()` returns becomes an explicit
parameter. It is a sequence of entries, each a path plus an optional map
from interface name to a map from property name to value, in dictionary
order. Python exceptions become `Failure` values:
- The `ValueError` of a scan that finds nothing is `NotFound`.
- The `KeyError` of an object that carries the interface but lacks the
  property is `MissingProperty`.
- In `list_adapters`, the `TypeError` of an object whose interface
  dictionary is `None` is `NotIterable`.
- In `list_adapters`, the `KeyError` of an adapter without an `Address` is
  `MissingAddress`.
- `AdapterError` is `NoAdapterFound`.

A missing parent scope could be read as "search from the root", but the
code never matches when the scope is `None`
(`parent_path is not None and ...`). The model follows the code, so a
device, service or profile asked for without its adapter always fails.
`DbusToolsExamples.DeviceWithoutAdapterFails` shows this on a concrete
snapshot.

The scope test is a plain `startswith`, so `/org/bluez/hci1` also admits
objects under `/org/bluez/hci10`. The model keeps this behaviour.
`DbusToolsExamples.PrefixIsNotSegmentAware` shows it.

## Model

| member | source | states |
|---|---|---|
| DbusTools.FindPath | bluezero/dbus_tools.py:106-128 | A success returns the path of some entry that carries the interface, has the property equal to the value ignoring case and starts with the scope, and every earlier entry is passed over. A `MissingProperty` error names the first entry carrying the interface without the property. `NotFound` is returned exactly when every entry is passed over. A `None` scope never succeeds. |
| DbusTools.FindPathReturnsFirst | bluezero/dbus_tools.py:117-127 | If entry `i` qualifies and every entry before it is passed over, the scan returns entry `i`'s path: the first match in dictionary order wins. |
| DbusTools.FindPathAppend | bluezero/dbus_tools.py:117-128 | Scanning `a + b` gives the result of scanning `a`, unless that scan found nothing, in which case it gives the result of scanning `b`: entries after the deciding one are never consulted. |
| DbusTools.FindPathIgnoresCase | bluezero/dbus_tools.py:125 | Two values that are equal after `lower()` give the same scan result. |
| DbusTools.FindPathUpperCase | bluezero/dbus_tools.py:125 | Looking for the upper-cased value gives the same result as looking for the value. |
| DbusTools.FindPathIgnoresStoredCase | bluezero/dbus_tools.py:125 | Two snapshots whose stored property values differ only in letter case give the same scan result. |
| DbusTools.Step | bluezero/dbus_tools.py:157-162 | An absent identifier keeps the scope. A present one that resolves gives a path that starts with the scope and belongs to an entry qualifying for that level. With no scope, a present identifier fails. |
| DbusTools.Chain | bluezero/dbus_tools.py:157-183 | A successful chain from a scope ends at a path that starts with that scope. With every identifier absent it returns the scope unchanged. From no scope it gives `None` exactly when every identifier is absent, and fails otherwise. |
| DbusTools.AdapterScope | bluezero/dbus_tools.py:150-155 | No adapter gives no scope. A resolved adapter is a path under `/org/bluez` whose entry carries `org.bluez.Adapter1` with a matching `Address`. |
| DbusTools.GetDbusPath | bluezero/dbus_tools.py:131-184 | With nothing supplied the result is `None`. Deeper identifiers without an adapter fail. An adapter address that no `Adapter1` entry under `/org/bluez` carries fails. A resolved path lies under `/org/bluez` and is a path of the snapshot. |
| DbusTools.GetProfilePath | bluezero/dbus_tools.py:187-220 | With nothing supplied the result is `None`. A device or profile without an adapter fails. An adapter address that no `Adapter1` entry under `/org/bluez` carries fails. A resolved path lies under `/org/bluez` and is a path of the snapshot. A supplied profile that resolves gives a path carrying `org.bluez.GattProfile1`. |
| DbusTools.GetProfilePathIntermediates | bluezero/dbus_tools.py:187-220 | When a profile lookup succeeds, the `get_dbus_path` lookups of the adapter alone and of adapter and device also succeed, and each path they give is a prefix of the profile path. |
| DbusTools.GetIface | bluezero/dbus_tools.py:223-252 | The result is the interface of the deepest identifier supplied: some supplied identifier has it as its level's interface, and every deeper identifier is absent. |
| DbusTools.ChainLastLevel | bluezero/dbus_tools.py:157-184 | A successful chain ends at the scope or at a path the snapshot holds. If some identifier is supplied, it ends at a path carrying the deepest supplied level's interface. |
| DbusTools.ChainIntermediate | bluezero/dbus_tools.py:157-184 | If the full chain succeeds, the chain cut after any level also succeeds, and the full path starts with the cut one. |
| DbusTools.ChainAborts | bluezero/dbus_tools.py:157-183 | If the levels before `k` succeed and level `k` fails, the whole chain fails with level `k`'s error. |
| DbusTools.ChainIgnoresCase | bluezero/dbus_tools.py:125 | Chains whose identifiers agree ignoring case give the same result. |
| DbusTools.GetDbusPathCarriesIface | bluezero/dbus_tools.py:131-184 | A resolved path carries the interface that `get_iface` names for the same identifiers: the two functions agree. |
| DbusTools.GetDbusPathIntermediates | bluezero/dbus_tools.py:131-184 | When the full lookup succeeds, lookups that stop at the adapter, device, service or characteristic also succeed, and each path they give is a prefix of the full one. |
| DbusTools.GetDbusPathIgnoresCase | bluezero/dbus_tools.py:131-184 | Identifiers that agree ignoring case resolve to the same path or fail the same way. |
| DbusToolsExamples.ResolveAdapter | tests/test_dbus_tools.py:55-63 | On a sample snapshot, the adapter `00:00:00:00:5A:AD` resolves to `/org/bluez/hci0`. |
| DbusToolsExamples.ResolveDeviceAnyCase | tests/test_dbus_tools.py:55-63 | On the sample snapshot, adapter plus the lower-cased device address resolve to the device path. |
| DbusToolsExamples.DeviceWithoutAdapterFails | bluezero/dbus_tools.py:126 | A device and service supplied without their adapter fail with `NotFound`. |
| DbusToolsExamples.UnknownAdapterFails | tests/test_dbus_tools.py:177-182 | An adapter address the snapshot does not hold makes the whole call fail with `NotFound`. |
| DbusToolsExamples.PrefixIsNotSegmentAware | bluezero/dbus_tools.py:126 | A device under `/org/bluez/hci10` is found in the scope `/org/bluez/hci1`. |
| Adapter.CollectAddresses | bluezero/adapter.py:36-40 | The loop of `list_adapters`. A failure is never `AdapterError`: only the `TypeError` of a missing interface dictionary or the `KeyError` of a missing `Address`. |
| Adapter.CollectAddressesSucceeds | bluezero/adapter.py:36-40 | The loop finishes exactly when every object has an interface dictionary and every adapter has an `Address`. |
| Adapter.CollectAddressesValues | bluezero/adapter.py:36-40 | A finished loop holds one address per adapter entry, in snapshot order. |
| Adapter.ListAdapters | bluezero/adapter.py:31-44 | It succeeds exactly when the snapshot is well shaped and holds an adapter. It fails with `AdapterError` exactly when the snapshot is well shaped and holds none. A success lists every adapter's address, at least one, in snapshot order. |
| Adapter.DefaultAdapter | bluezero/adapter.py:46-50 | It succeeds exactly when `list_adapters` does, and otherwise fails with the same error. A success is the address of the first adapter entry in the snapshot. |
| Adapter.NearbyDiscovery | bluezero/adapter.py:227-230 | The timeout becomes the argument, 10 when none is given, and the count restarts at 0. |
| Adapter.DiscoveringTimeout | bluezero/adapter.py:218-225 | The count goes up by one. The callback returns `False` exactly when the new count exceeds the timeout, and only then does it stop discovery and quit the main loop. |
| Adapter.ReturnsCountdown | bluezero/adapter.py:218-225 | From a count `c` not past the timeout `t`, the next `t - c` calls return `True` and the one after returns `False`. |
| Adapter.NearbyDiscoveryReturns | bluezero/adapter.py:218-233 | After `nearby_discovery(t)`, the callback returns `True` `t` times, then `False`. |
| Adapter.NearbyDiscoveryDefault | bluezero/adapter.py:218-233 | With the default `timeout=10`, the timer fires 11 times and leaves the count at 11. |
| Adapter.RunTimer | bluezero/adapter.py:218-225 | Calling the callback until it returns `False` ends: it fires at least once, each call adds one to the count, and the count ends past the timeout, which stays unchanged. |
| Adapter.RunTimerCount | bluezero/adapter.py:218-225 | Run until it returns `False`, the callback fires `t - c + 1` times from a count `c <= t` (once from a count past `t`) and leaves the count one past the larger of the two. |
| Adapter.NearbyDiscoveryRunTimer | bluezero/adapter.py:227-233 | After `nearby_discovery(t)` the timer fires `t + 1` times for `t >= 0`, and once otherwise. |
| Observer.LazyRunEnd | examples/observer.py:52 | The lazy `\S+?` run stops at the first `/` or at the end of the path, with no `/` before it, and always stops when no whitespace follows. |
| Observer.MatchAt | examples/observer.py:52 | On a path without whitespace, the pattern matches at position `i` exactly when `dev_` starts there with at least one character after it. |
| Observer.Search | examples/observer.py:52 | `re.search` returns the leftmost position where the pattern matches. |
| Observer.PathToAddr | examples/observer.py:51-57 | It returns `''` exactly when the path has no `dev_` followed by a character. Otherwise it returns the text after the first such `dev_`, up to the next `/` after its first character or to the end of the path, with `_` turned into `:`. The result never holds `_`. |
| Observer.PathToAddrOfDevicePath | examples/observer.py:51-57 | Round trip: a path made of an adapter path, `/dev_` plus the address with `:` turned into `_`, and any deeper segments gives the address back. |
| Observer.PathToAddrExample | examples/observer.py:51-57 | The path `/org/bluez/hci0/dev_E4_43_33_7E_54_1C/service002a` gives `E4:43:33:7E:54:1C`. |
| Observer.IntfAdded | examples/observer.py:21-27 | The known addresses keep their order and gain at most one entry. The result holds exactly the old addresses plus the sender's. No duplicates are introduced. |
| Observer.IntfAddedIdempotent | tests/test_observer.py:82-92 | A second announcement from the same sender changes nothing. |
| Observer.IntfAddedSameDevice | examples/observer.py:21-27 | Announcements from two objects below the same device add a single entry. |
| Text.LowerOfUpper | bluezero/dbus_tools.py:125 | A string and its upper-cased form are equal ignoring case. |
| Text.StartsWithTransitive | bluezero/dbus_tools.py:126 | Nested scopes: a path under `b`, where `b` lies under `c`, lies under `c`. |
| Text.ReplaceCharRoundTrip | examples/observer.py:56 | Replacing `:` with `_` and then `_` with `:` restores a text without `_`. |

## Left out

- Bus access is replaced by an explicit snapshot parameter. This covers `get_managed_objects`, the proxies, `StartDiscovery`, `StopDiscovery` and the GLib or asyncio main loop. The callback's calls on the bus and the loop appear only as the `Effect` values it returns.
- The `subprocess` helpers, logging callbacks and property wrappers of `adapter.py` and `dbus_tools.py` are outside the modelled core.
- Observer.IntfAdded: assumes that `_devices` starts as an empty dictionary and that `add_device(addr)` inserts `addr` into it, as `bluezero/central.py:47` intends. The source never creates `_devices`: `Central.__init__` (`bluezero/central.py:25-38`) does not assign it. As written, every `intf_added` call would raise `AttributeError` at `examples/observer.py:23`. The model describes the intended insert-if-absent behaviour, not that error. Building the `Device` object is left out.
- The unused `obj` argument of `intf_added` and its `print` are left out.
- `get_dbus_paths` is exercised by the tests, but `dbus_tools.py` does not define it, so it is not modelled.
- `bluezero/constants.py` is not part of this model. The interface names are BlueZ's own: `org.bluez.Adapter1`, `org.bluez.Device1`, `org.bluez.GattService1`, `org.bluez.GattCharacteristic1` and `org.bluez.GattDescriptor1`. `org.bluez.GattProfile1` is assumed for `GATT_PROFILE_IFACE`.
- Property values are strings. D-Bus values of other types, and `.lower()` on them, are not modelled.
- `lower()` and `upper()` are modelled on ASCII letters only. Unicode case mapping is not modelled.
- DbusTools.GetIface: requires at least one identifier. With none supplied, the source raises `UnboundLocalError`, which the model does not represent.
- Observer.PathToAddr: requires a path made of `[A-Za-z0-9_/]`, the characters of a D-Bus object path. Whitespace, and the way `$` also matches before a final newline, are outside the model.
- Adapter.CollectAddresses: on failure it states only that the error is not `AdapterError`. It does not name the object that raised `TypeError` or `KeyError`.
- Adapter.NearbyDiscovery: the timeout is an integer, with default 10. Python would also accept a float or any other value that `>` can compare, and the model does not represent those.
- Adapter.RunTimer: the GLib timer is modelled as calls of the callback in a row. Real time and the one-second period are not modelled.

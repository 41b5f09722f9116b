/** The object-path resolver of `bluezero/dbus_tools.py`.

    The bus is not modelled: the reply of `GetManagedObjects()` is an
    explicit, ordered `Snapshot` argument, one entry per object path in the
    order Python's dict iterates it. A bag of `None` stands for an object
    whose interface dictionary is `None`, which the scan skips. */
module DbusTools {
  import opened Wrappers
  import opened Text

  /** property name -> value (the key properties compared here are strings) */
  type PropertyBag = map<string, string>
  /** interface name -> property bag */
  type InterfaceBag = map<string, PropertyBag>

  datatype Entry = Entry(path: string, bag: Option<InterfaceBag>)

  type Snapshot = seq<Entry>

  const BluezRoot := "/org/bluez"
  const AdapterIface := "org.bluez.Adapter1"
  const DeviceIface := "org.bluez.Device1"
  const GattServiceIface := "org.bluez.GattService1"
  const GattChrcIface := "org.bluez.GattCharacteristic1"
  const GattDescIface := "org.bluez.GattDescriptor1"
  const GattProfileIface := "org.bluez.GattProfile1"

  /** The two ways a lookup fails: `ValueError` when nothing qualifies, and
      the `KeyError` raised when an object carries the interface but not
      the property being compared. */
  datatype LookupError =
    | NotFound
    | MissingProperty(path: string, iface: string, prop: string)

  predicate HasPath(objs: Snapshot, p: string) {
    exists i :: 0 <= i < |objs| && objs[i].path == p
  }

  predicate Carries(e: Entry, iface: string) {
    e.bag.Some? && iface in e.bag.value
  }

  /** An object path lies at `p` in the snapshot and carries `iface` there. */
  predicate ResolvedAt(objs: Snapshot, p: string, iface: string) {
    exists i :: 0 <= i < |objs| && objs[i].path == p && Carries(objs[i], iface)
  }

  /** The four conditions an entry must meet to be returned: it carries the
      interface, that interface's property equals `value` ignoring case, a
      scope is given, and the path starts with the scope. */
  predicate Qualifies(e: Entry, scope: Option<string>, iface: string, prop: string, value: string) {
    && Carries(e, iface)
    && prop in e.bag.value[iface]
    && EqualsIgnoreCase(e.bag.value[iface][prop], value)
    && scope.Some?
    && StartsWith(e.path, scope.value)
  }

  /** The entry makes the scan raise `KeyError`. */
  predicate Faults(e: Entry, iface: string, prop: string) {
    Carries(e, iface) && prop !in e.bag.value[iface]
  }

  /** The scan moves past the entry. */
  predicate Passes(e: Entry, scope: Option<string>, iface: string, prop: string, value: string) {
    !Qualifies(e, scope, iface, prop, value) && !Faults(e, iface, prop)
  }

  /** `_get_dbus_path2`: the first entry, in snapshot order, whose `iface`
      has `prop` equal to `value` ignoring case and whose path starts with
      `scope`. A `None` scope never matches. */
  function FindPath(objs: Snapshot, scope: Option<string>, iface: string, prop: string, value: string)
    : (r: Result<string, LookupError>)
    ensures r.Success? ==>
      exists i :: 0 <= i < |objs| && objs[i].path == r.value
        && Qualifies(objs[i], scope, iface, prop, value)
        && forall j :: 0 <= j < i ==> Passes(objs[j], scope, iface, prop, value)
    ensures r.Failure? && r.error.MissingProperty? ==>
      exists i :: 0 <= i < |objs| && r.error == MissingProperty(objs[i].path, iface, prop)
        && Faults(objs[i], iface, prop)
        && forall j :: 0 <= j < i ==> Passes(objs[j], scope, iface, prop, value)
    ensures r == Failure(NotFound) <==>
      forall i :: 0 <= i < |objs| ==> Passes(objs[i], scope, iface, prop, value)
    ensures scope.None? ==> r.Failure?
    decreases |objs|
  {
    if |objs| == 0 then Failure(NotFound)
    else
      var e := objs[0];
      match e.bag
      case None => FindPath(objs[1..], scope, iface, prop, value)
      case Some(props) =>
        if iface !in props then FindPath(objs[1..], scope, iface, prop, value)
        else if prop !in props[iface] then Failure(MissingProperty(e.path, iface, prop))
        else if Lower(props[iface][prop]) == Lower(value) && scope.Some? && StartsWith(e.path, scope.value)
        then Success(e.path)
        else FindPath(objs[1..], scope, iface, prop, value)
  }

  /** One level of the identifier chain: the identifier (or `None`), the
      interface it selects and the property it is compared with. */
  datatype Level = Level(id: Option<string>, iface: string, prop: string)

  /** One `if x is not None:` block of `get_dbus_path`: an absent
      identifier keeps the scope, a present one replaces it by the path it
      resolves to inside that scope. */
  function Step(objs: Snapshot, scope: Option<string>, level: Level): (r: Result<Option<string>, LookupError>)
    ensures level.id.None? ==> r == Success(scope)
    ensures level.id.Some? && r.Success? ==>
      && r.value.Some? && scope.Some?
      && StartsWith(r.value.value, scope.value)
      && exists i :: 0 <= i < |objs| && objs[i].path == r.value.value
           && Qualifies(objs[i], scope, level.iface, level.prop, level.id.value)
    ensures level.id.Some? && scope.None? ==> r.Failure?
  {
    match level.id
    case None => Success(scope)
    case Some(id) =>
      var p :- FindPath(objs, scope, level.iface, level.prop, id);
      Success(Some(p))
  }

  /** The levels below the adapter, applied in order, each narrowing the
      scope left by the ones before it. */
  function Chain(objs: Snapshot, scope: Option<string>, levels: seq<Level>): (r: Result<Option<string>, LookupError>)
    ensures r.Success? && scope.Some? ==> r.value.Some? && StartsWith(r.value.value, scope.value)
    ensures (forall k :: 0 <= k < |levels| ==> levels[k].id.None?) ==> r == Success(scope)
    ensures scope.None? ==>
      (r == Success(None) <==> forall k :: 0 <= k < |levels| ==> levels[k].id.None?)
    ensures scope.None? ==> r.Success? ==> r.value.None?
    decreases |levels|
  {
    if |levels| == 0 then Success(scope)
    else
      var next :- Step(objs, scope, levels[0]);
      var r := Chain(objs, next, levels[1..]);
      if r.Success? && scope.Some? then
        StartsWithTransitive(r.value.value, next.value, scope.value);
        r
      else
        r
  }

  /** The scope set by the `adapter` block: always searched under
      `/org/bluez`, whatever came before. */
  function AdapterScope(objs: Snapshot, adapter: Option<string>): (r: Result<Option<string>, LookupError>)
    ensures adapter.None? ==> r == Success(None)
    ensures adapter.Some? && r.Success? ==>
      && r.value.Some? && StartsWith(r.value.value, BluezRoot)
      && exists i :: 0 <= i < |objs| && objs[i].path == r.value.value
           && Qualifies(objs[i], Some(BluezRoot), AdapterIface, "Address", adapter.value)
  {
    if adapter.None? then Success(None)
    else Step(objs, Some(BluezRoot), Level(adapter, AdapterIface, "Address"))
  }

  function DbusLevels(device: Option<string>, service: Option<string>, characteristic: Option<string>,
                      descriptor: Option<string>): seq<Level>
  {
    [ Level(device, DeviceIface, "Address"),
      Level(service, GattServiceIface, "UUID"),
      Level(characteristic, GattChrcIface, "UUID"),
      Level(descriptor, GattDescIface, "UUID") ]
  }

  /** `get_dbus_path`: the path of the deepest identifier supplied, each one
      looked up inside the path found for the one before it. */
  function GetDbusPath(objs: Snapshot, adapter: Option<string>, device: Option<string>, service: Option<string>,
                       characteristic: Option<string>, descriptor: Option<string>)
    : (r: Result<Option<string>, LookupError>)
    ensures adapter.None? && device.None? && service.None? && characteristic.None? && descriptor.None?
      ==> r == Success(None)
    ensures adapter.None? && (device.Some? || service.Some? || characteristic.Some? || descriptor.Some?)
      ==> r.Failure?
    ensures adapter.Some? &&
      (forall i :: 0 <= i < |objs| ==> !Qualifies(objs[i], Some(BluezRoot), AdapterIface, "Address", adapter.value))
      ==> r.Failure?
    ensures r.Success? && r.value.Some? ==> StartsWith(r.value.value, BluezRoot) && HasPath(objs, r.value.value)
  {
    var scope :- AdapterScope(objs, adapter);
    var levels := DbusLevels(device, service, characteristic, descriptor);
    assert levels[0].id == device && levels[1].id == service;
    assert levels[2].id == characteristic && levels[3].id == descriptor;
    var r := Chain(objs, scope, levels);
    if r.Success? && r.value.Some? then
      StartsWithTransitive(r.value.value, scope.value, BluezRoot);
      ChainLastLevel(objs, scope, levels);
      r
    else
      r
  }

  function ProfileLevels(device: Option<string>, profile: Option<string>): seq<Level> {
    [Level(device, DeviceIface, "Address"), Level(profile, GattProfileIface, "UUID")]
  }

  /** `get_profile_path`: the same chain through adapter, device and a
      `GattProfile1` UUID. */
  function GetProfilePath(objs: Snapshot, adapter: Option<string>, device: Option<string>, profile: Option<string>)
    : (r: Result<Option<string>, LookupError>)
    ensures adapter.None? && device.None? && profile.None? ==> r == Success(None)
    ensures adapter.None? && (device.Some? || profile.Some?) ==> r.Failure?
    ensures adapter.Some? &&
      (forall i :: 0 <= i < |objs| ==> !Qualifies(objs[i], Some(BluezRoot), AdapterIface, "Address", adapter.value))
      ==> r.Failure?
    ensures r.Success? && r.value.Some? ==> StartsWith(r.value.value, BluezRoot) && HasPath(objs, r.value.value)
    ensures profile.Some? && r.Success? ==> r.value.Some? && ResolvedAt(objs, r.value.value, GattProfileIface)
  {
    var scope :- AdapterScope(objs, adapter);
    var levels := ProfileLevels(device, profile);
    assert levels[0].id == device && levels[1].id == profile;
    var r := Chain(objs, scope, levels);
    if r.Success? && r.value.Some? then
      StartsWithTransitive(r.value.value, scope.value, BluezRoot);
      ChainLastLevel(objs, scope, levels);
      if profile.Some? then
        assert IsDeepest(levels, 1);
        r
      else
        r
    else
      r
  }

  const LevelIfaces: seq<string> := [AdapterIface, DeviceIface, GattServiceIface, GattChrcIface, GattDescIface]

  /** `get_iface`: the interface of the deepest identifier supplied. With
      every identifier `None` the source raises `UnboundLocalError`, so at
      least one is required. */
  function GetIface(adapter: Option<string>, device: Option<string>, service: Option<string>,
                    characteristic: Option<string>, descriptor: Option<string>): (r: string)
    requires adapter.Some? || device.Some? || service.Some? || characteristic.Some? || descriptor.Some?
    ensures var ids := [adapter, device, service, characteristic, descriptor];
      exists k :: 0 <= k < 5 && ids[k].Some? && r == LevelIfaces[k]
        && forall j :: k < j < 5 ==> ids[j].None?
  {
    var iface0: Option<string> := if adapter.Some? then Some(AdapterIface) else None;
    var iface1 := if device.Some? then Some(DeviceIface) else iface0;
    var iface2 := if service.Some? then Some(GattServiceIface) else iface1;
    var iface3 := if characteristic.Some? then Some(GattChrcIface) else iface2;
    var iface4 := if descriptor.Some? then Some(GattDescIface) else iface3;
    var deepest := if descriptor.Some? then 4 else if characteristic.Some? then 3
                   else if service.Some? then 2 else if device.Some? then 1 else 0;
    assert [adapter, device, service, characteristic, descriptor][deepest].Some?;
    assert iface4.value == LevelIfaces[deepest];
    iface4.value
  }

  // ---------------------------------------------------------------------
  // The scan
  // ---------------------------------------------------------------------

  /** Completeness of the scan: the first entry that qualifies, after
      entries the scan moves past, is the one returned. */
  lemma {:induction false} FindPathReturnsFirst(objs: Snapshot, scope: Option<string>, iface: string, prop: string,
                                                value: string, i: nat)
    requires i < |objs| && Qualifies(objs[i], scope, iface, prop, value)
    requires forall j :: 0 <= j < i ==> Passes(objs[j], scope, iface, prop, value)
    ensures FindPath(objs, scope, iface, prop, value) == Success(objs[i].path)
    decreases i
  {
    if i > 0 {
      assert Passes(objs[0], scope, iface, prop, value);
      FindPathReturnsFirst(objs[1..], scope, iface, prop, value, i - 1);
    }
  }

  /** Entries after the one that decides the scan are never consulted; only
      a scan that found nothing continues into what follows. */
  lemma {:induction false} FindPathAppend(a: Snapshot, b: Snapshot, scope: Option<string>, iface: string,
                                          prop: string, value: string)
    ensures FindPath(a + b, scope, iface, prop, value) ==
      if FindPath(a, scope, iface, prop, value) == Failure(NotFound)
      then FindPath(b, scope, iface, prop, value)
      else FindPath(a, scope, iface, prop, value)
    decreases |a|
  {
    if |a| == 0 {
      assert a + b == b;
    } else {
      var ab := a + b;
      assert ab[0] == a[0];
      assert ab[1..] == a[1..] + b;
      var e := a[0];
      if Passes(e, scope, iface, prop, value) {
        FindPathAppend(a[1..], b, scope, iface, prop, value);
      }
    }
  }

  /** Changing the letter case of the value looked for changes nothing. */
  lemma {:induction false} FindPathIgnoresCase(objs: Snapshot, scope: Option<string>, iface: string, prop: string,
                                               value: string, value': string)
    requires EqualsIgnoreCase(value, value')
    ensures FindPath(objs, scope, iface, prop, value) == FindPath(objs, scope, iface, prop, value')
    decreases |objs|
  {
    if |objs| > 0 {
      FindPathIgnoresCase(objs[1..], scope, iface, prop, value, value');
    }
  }

  /** Looking for the upper-cased spelling finds the same path, or fails the
      same way. */
  lemma FindPathUpperCase(objs: Snapshot, scope: Option<string>, iface: string, prop: string, value: string)
    ensures FindPath(objs, scope, iface, prop, Upper(value)) == FindPath(objs, scope, iface, prop, value)
  {
    LowerOfUpper(value);
    FindPathIgnoresCase(objs, scope, iface, prop, Upper(value), value);
  }

  /** Two interface bags that differ only in the letter case of property
      values. */
  predicate BagsAgreeIgnoringCase(x: Option<InterfaceBag>, y: Option<InterfaceBag>) {
    match x
    case None => y.None?
    case Some(bx) =>
      && y.Some?
      && bx.Keys == y.value.Keys
      && forall f :: f in bx ==>
           && bx[f].Keys == y.value[f].Keys
           && forall p :: p in bx[f] ==> EqualsIgnoreCase(bx[f][p], y.value[f][p])
  }

  predicate SnapshotsAgreeIgnoringCase(a: Snapshot, b: Snapshot) {
    && |a| == |b|
    && forall i :: 0 <= i < |a| ==> a[i].path == b[i].path && BagsAgreeIgnoringCase(a[i].bag, b[i].bag)
  }

  /** Two such entries make the scan take the same branch. */
  lemma EntriesAgreeIgnoringCase(x: Entry, y: Entry, scope: Option<string>, iface: string, prop: string,
                                 value: string)
    requires x.path == y.path && BagsAgreeIgnoringCase(x.bag, y.bag)
    ensures Carries(x, iface) == Carries(y, iface)
    ensures Carries(x, iface) ==> (prop in x.bag.value[iface] <==> prop in y.bag.value[iface])
    ensures Carries(x, iface) && prop in x.bag.value[iface] ==>
      Lower(x.bag.value[iface][prop]) == Lower(y.bag.value[iface][prop])
  {
  }

  /** Changing the letter case of stored property values changes nothing. */
  lemma {:induction false} FindPathIgnoresStoredCase(a: Snapshot, b: Snapshot, scope: Option<string>, iface: string,
                                                     prop: string, value: string)
    requires SnapshotsAgreeIgnoringCase(a, b)
    ensures FindPath(a, scope, iface, prop, value) == FindPath(b, scope, iface, prop, value)
    decreases |a|
  {
    if |a| > 0 {
      EntriesAgreeIgnoringCase(a[0], b[0], scope, iface, prop, value);
      assert SnapshotsAgreeIgnoringCase(a[1..], b[1..]) by {
        forall i | 0 <= i < |a| - 1
          ensures a[1..][i].path == b[1..][i].path && BagsAgreeIgnoringCase(a[1..][i].bag, b[1..][i].bag)
        {
          assert a[1..][i] == a[i + 1] && b[1..][i] == b[i + 1];
        }
      }
      FindPathIgnoresStoredCase(a[1..], b[1..], scope, iface, prop, value);
    }
  }

  // ---------------------------------------------------------------------
  // The chain
  // ---------------------------------------------------------------------

  /** Index of the deepest level that carries an identifier. */
  predicate IsDeepest(levels: seq<Level>, k: int) {
    0 <= k < |levels| && levels[k].id.Some? && forall j :: k < j < |levels| ==> levels[j].id.None?
  }

  /** A chain that changes the scope ends on an object carrying the
      interface of the deepest identifier; one with no identifier leaves the
      scope as it was. */
  lemma {:induction false} ChainLastLevel(objs: Snapshot, scope: Option<string>, levels: seq<Level>)
    requires Chain(objs, scope, levels).Success?
    ensures var p := Chain(objs, scope, levels).value; p.Some? ==> p == scope || HasPath(objs, p.value)
    ensures forall k :: IsDeepest(levels, k) ==>
      var p := Chain(objs, scope, levels).value;
      p.Some? && ResolvedAt(objs, p.value, levels[k].iface)
    decreases |levels|
  {
    if |levels| > 0 {
      var next := Step(objs, scope, levels[0]).value;
      ChainLastLevel(objs, next, levels[1..]);
      forall k | IsDeepest(levels, k)
        ensures var p := Chain(objs, scope, levels).value; p.Some? && ResolvedAt(objs, p.value, levels[k].iface)
      {
        if k > 0 {
          assert IsDeepest(levels[1..], k - 1);
        } else {
          assert forall j :: 0 <= j < |levels[1..]| ==> levels[1..][j].id.None? by {
            forall j | 0 <= j < |levels[1..]| ensures levels[1..][j].id.None? {
              assert levels[1..][j] == levels[j + 1];
            }
          }
        }
      }
    }
  }

  /** The identifiers from position `k` on are dropped. */
  function Truncate(levels: seq<Level>, k: nat): (r: seq<Level>)
    ensures |r| == |levels|
    ensures forall i :: 0 <= i < |levels| ==> r[i].iface == levels[i].iface && r[i].prop == levels[i].prop
    ensures forall i :: 0 <= i < |levels| ==> r[i].id == if i < k then levels[i].id else None
  {
    seq(|levels|, i requires 0 <= i < |levels| => if i < k then levels[i] else levels[i].(id := None))
  }

  /** One step of the chain, then the rest. */
  lemma ChainUnfold(objs: Snapshot, scope: Option<string>, levels: seq<Level>)
    requires |levels| > 0
    ensures var step := Step(objs, scope, levels[0]);
      Chain(objs, scope, levels) ==
        if step.Failure? then Failure(step.error) else Chain(objs, step.value, levels[1..])
  {
  }

  lemma TruncateNothing(levels: seq<Level>)
    ensures forall i :: 0 <= i < |Truncate(levels, 0)| ==> Truncate(levels, 0)[i].id.None?
  {
  }

  lemma TruncateTail(levels: seq<Level>, k: nat)
    requires |levels| > 0 && k > 0
    ensures Truncate(levels, k)[0] == levels[0]
    ensures Truncate(levels, k)[1..] == Truncate(levels[1..], k - 1)
  {
    assert Truncate(levels, k)[1..] == Truncate(levels[1..], k - 1);
  }

  /** Every intermediate scope of a successful chain is reached by the
      shorter chain, and the final path starts with it. */
  lemma {:induction false} ChainIntermediate(objs: Snapshot, scope: Option<string>, levels: seq<Level>, k: nat)
    requires Chain(objs, scope, levels).Success?
    ensures Chain(objs, scope, Truncate(levels, k)).Success?
    ensures var full := Chain(objs, scope, levels).value;
            var part := Chain(objs, scope, Truncate(levels, k)).value;
            part.Some? ==> full.Some? && StartsWith(full.value, part.value)
    decreases |levels|
  {
    if |levels| > 0 {
      if k == 0 {
        TruncateNothing(levels);
      } else {
        var t := Truncate(levels, k);
        TruncateTail(levels, k);
        ChainUnfold(objs, scope, levels);
        ChainUnfold(objs, scope, t);
        ChainIntermediate(objs, Step(objs, scope, levels[0]).value, levels[1..], k - 1);
      }
    }
  }

  /** A failing step aborts the whole chain with that step's error. */
  lemma {:induction false} ChainAborts(objs: Snapshot, scope: Option<string>, levels: seq<Level>, k: nat, e: LookupError)
    requires k < |levels|
    requires Chain(objs, scope, levels[..k]).Success?
    requires Step(objs, Chain(objs, scope, levels[..k]).value, levels[k]) == Failure(e)
    ensures Chain(objs, scope, levels) == Failure(e)
    decreases k
  {
    if k > 0 {
      assert levels[..k][0] == levels[0];
      assert levels[..k][1..] == levels[1..][..k - 1];
      var next := Step(objs, scope, levels[0]).value;
      ChainAborts(objs, next, levels[1..], k - 1, e);
    }
  }

  predicate OptionsAgreeIgnoringCase(x: Option<string>, y: Option<string>) {
    match x
    case None => y.None?
    case Some(a) => y.Some? && EqualsIgnoreCase(a, y.value)
  }

  predicate LevelsAgreeIgnoringCase(a: seq<Level>, b: seq<Level>) {
    && |a| == |b|
    && forall i :: 0 <= i < |a| ==>
         a[i].iface == b[i].iface && a[i].prop == b[i].prop && OptionsAgreeIgnoringCase(a[i].id, b[i].id)
  }

  lemma {:induction false} ChainIgnoresCase(objs: Snapshot, scope: Option<string>, a: seq<Level>, b: seq<Level>)
    requires LevelsAgreeIgnoringCase(a, b)
    ensures Chain(objs, scope, a) == Chain(objs, scope, b)
    decreases |a|
  {
    if |a| > 0 {
      if a[0].id.Some? {
        FindPathIgnoresCase(objs, scope, a[0].iface, a[0].prop, a[0].id.value, b[0].id.value);
      }
      assert Step(objs, scope, a[0]) == Step(objs, scope, b[0]);
      if Step(objs, scope, a[0]).Success? {
        assert LevelsAgreeIgnoringCase(a[1..], b[1..]);
        ChainIgnoresCase(objs, Step(objs, scope, a[0]).value, a[1..], b[1..]);
      }
    }
  }

  // ---------------------------------------------------------------------
  // get_dbus_path
  // ---------------------------------------------------------------------

  /** `get_dbus_path` is the adapter step followed by the chain of the
      deeper levels, and fails with the adapter step's error. */
  lemma GetDbusPathSteps(objs: Snapshot, adapter: Option<string>, device: Option<string>,
                         service: Option<string>, characteristic: Option<string>, descriptor: Option<string>)
    ensures var start := AdapterScope(objs, adapter);
      GetDbusPath(objs, adapter, device, service, characteristic, descriptor) ==
        if start.Failure? then Failure(start.error)
        else Chain(objs, start.value, DbusLevels(device, service, characteristic, descriptor))
  {
  }

  /** Which level of `get_dbus_path` is the deepest one supplied. */
  lemma DbusLevelsDeepest(device: Option<string>, service: Option<string>, characteristic: Option<string>,
                          descriptor: Option<string>)
    ensures var levels := DbusLevels(device, service, characteristic, descriptor);
      && (descriptor.Some? ==> IsDeepest(levels, 3) && levels[3].iface == GattDescIface)
      && (descriptor.None? && characteristic.Some? ==> IsDeepest(levels, 2) && levels[2].iface == GattChrcIface)
      && (descriptor.None? && characteristic.None? && service.Some? ==>
            IsDeepest(levels, 1) && levels[1].iface == GattServiceIface)
      && (descriptor.None? && characteristic.None? && service.None? && device.Some? ==>
            IsDeepest(levels, 0) && levels[0].iface == DeviceIface)
      && (descriptor.None? && characteristic.None? && service.None? && device.None? ==>
            forall k :: 0 <= k < |levels| ==> levels[k].id.None?)
  {
  }

  /** The chain below the adapter ends on an object carrying the interface
      of its deepest identifier. */
  lemma DbusChainCarries(objs: Snapshot, scope: Option<string>, device: Option<string>, service: Option<string>,
                         characteristic: Option<string>, descriptor: Option<string>)
    requires Chain(objs, scope, DbusLevels(device, service, characteristic, descriptor)).Success?
    ensures var p := Chain(objs, scope, DbusLevels(device, service, characteristic, descriptor)).value;
      && (descriptor.Some? ==> p.Some? && ResolvedAt(objs, p.value, GattDescIface))
      && (descriptor.None? && characteristic.Some? ==> p.Some? && ResolvedAt(objs, p.value, GattChrcIface))
      && (descriptor.None? && characteristic.None? && service.Some? ==>
            p.Some? && ResolvedAt(objs, p.value, GattServiceIface))
      && (descriptor.None? && characteristic.None? && service.None? && device.Some? ==>
            p.Some? && ResolvedAt(objs, p.value, DeviceIface))
      && (descriptor.None? && characteristic.None? && service.None? && device.None? ==> p == scope)
  {
    DbusLevelsDeepest(device, service, characteristic, descriptor);
    ChainLastLevel(objs, scope, DbusLevels(device, service, characteristic, descriptor));
  }

  /** A resolved path is held by the snapshot and carries the interface
      `get_iface` names for the same identifiers. */
  lemma GetDbusPathCarriesIface(objs: Snapshot, adapter: Option<string>, device: Option<string>,
                                service: Option<string>, characteristic: Option<string>, descriptor: Option<string>)
    requires GetDbusPath(objs, adapter, device, service, characteristic, descriptor).Success?
    requires GetDbusPath(objs, adapter, device, service, characteristic, descriptor).value.Some?
    ensures adapter.Some? || device.Some? || service.Some? || characteristic.Some? || descriptor.Some?
    ensures ResolvedAt(objs, GetDbusPath(objs, adapter, device, service, characteristic, descriptor).value.value,
                       GetIface(adapter, device, service, characteristic, descriptor))
  {
    GetDbusPathSteps(objs, adapter, device, service, characteristic, descriptor);
    var scope := AdapterScope(objs, adapter).value;
    DbusChainCarries(objs, scope, device, service, characteristic, descriptor);
  }

  /** `part` is an intermediate result of a chain that ended in `full`: it
      was reached, and any path in it is a prefix of the final path. */
  predicate IntermediateOf(part: Result<Option<string>, LookupError>, full: Result<Option<string>, LookupError>) {
    && part.Success?
    && (part.value.Some? ==> full.Success? && full.value.Some? && StartsWith(full.value.value, part.value.value))
  }

  lemma DbusLevelsTruncate(device: Option<string>, service: Option<string>, characteristic: Option<string>,
                           descriptor: Option<string>)
    ensures var levels := DbusLevels(device, service, characteristic, descriptor);
      && Truncate(levels, 0) == DbusLevels(None, None, None, None)
      && Truncate(levels, 1) == DbusLevels(device, None, None, None)
      && Truncate(levels, 2) == DbusLevels(device, service, None, None)
      && Truncate(levels, 3) == DbusLevels(device, service, characteristic, None)
  {
    var levels := DbusLevels(device, service, characteristic, descriptor);
    assert Truncate(levels, 0) == DbusLevels(None, None, None, None);
    assert Truncate(levels, 1) == DbusLevels(device, None, None, None);
    assert Truncate(levels, 2) == DbusLevels(device, service, None, None);
    assert Truncate(levels, 3) == DbusLevels(device, service, characteristic, None);
  }

  /** Leaving out the identifiers from level `k` on gives an intermediate
      result of the full call. */
  lemma GetDbusPathTruncated(objs: Snapshot, adapter: Option<string>,
                             device: Option<string>, service: Option<string>,
                             characteristic: Option<string>, descriptor: Option<string>,
                             device': Option<string>, service': Option<string>,
                             characteristic': Option<string>, descriptor': Option<string>, k: nat)
    requires DbusLevels(device', service', characteristic', descriptor') ==
             Truncate(DbusLevels(device, service, characteristic, descriptor), k)
    requires GetDbusPath(objs, adapter, device, service, characteristic, descriptor).Success?
    ensures IntermediateOf(GetDbusPath(objs, adapter, device', service', characteristic', descriptor'),
                           GetDbusPath(objs, adapter, device, service, characteristic, descriptor))
  {
    GetDbusPathSteps(objs, adapter, device, service, characteristic, descriptor);
    GetDbusPathSteps(objs, adapter, device', service', characteristic', descriptor');
    ChainIntermediate(objs, AdapterScope(objs, adapter).value, DbusLevels(device, service, characteristic, descriptor), k);
  }

  /** Each intermediate result of `get_dbus_path` (the call with the deeper
      identifiers left out) succeeds, and the final path starts with it. */
  lemma GetDbusPathIntermediates(objs: Snapshot, adapter: Option<string>, device: Option<string>,
                                 service: Option<string>, characteristic: Option<string>, descriptor: Option<string>)
    requires GetDbusPath(objs, adapter, device, service, characteristic, descriptor).Success?
    ensures var full := GetDbusPath(objs, adapter, device, service, characteristic, descriptor);
      && IntermediateOf(GetDbusPath(objs, adapter, None, None, None, None), full)
      && IntermediateOf(GetDbusPath(objs, adapter, device, None, None, None), full)
      && IntermediateOf(GetDbusPath(objs, adapter, device, service, None, None), full)
      && IntermediateOf(GetDbusPath(objs, adapter, device, service, characteristic, None), full)
  {
    DbusLevelsTruncate(device, service, characteristic, descriptor);
    GetDbusPathTruncated(objs, adapter, device, service, characteristic, descriptor, None, None, None, None, 0);
    GetDbusPathTruncated(objs, adapter, device, service, characteristic, descriptor, device, None, None, None, 1);
    GetDbusPathTruncated(objs, adapter, device, service, characteristic, descriptor, device, service, None, None, 2);
    GetDbusPathTruncated(objs, adapter, device, service, characteristic, descriptor,
                         device, service, characteristic, None, 3);
  }

  lemma AdapterScopeIgnoresCase(objs: Snapshot, adapter: Option<string>, adapter': Option<string>)
    requires OptionsAgreeIgnoringCase(adapter, adapter')
    ensures AdapterScope(objs, adapter) == AdapterScope(objs, adapter')
  {
    if adapter.Some? {
      FindPathIgnoresCase(objs, Some(BluezRoot), AdapterIface, "Address", adapter.value, adapter'.value);
    }
  }

  lemma DbusLevelsAgree(device: Option<string>, service: Option<string>, characteristic: Option<string>,
                        descriptor: Option<string>, device': Option<string>, service': Option<string>,
                        characteristic': Option<string>, descriptor': Option<string>)
    requires OptionsAgreeIgnoringCase(device, device') && OptionsAgreeIgnoringCase(service, service')
    requires OptionsAgreeIgnoringCase(characteristic, characteristic')
    requires OptionsAgreeIgnoringCase(descriptor, descriptor')
    ensures LevelsAgreeIgnoringCase(DbusLevels(device, service, characteristic, descriptor),
                                    DbusLevels(device', service', characteristic', descriptor'))
  {
  }

  /** Spelling any identifier in another letter case resolves to the same
      path, or fails the same way. */
  lemma GetDbusPathIgnoresCase(objs: Snapshot,
                               adapter: Option<string>, device: Option<string>, service: Option<string>,
                               characteristic: Option<string>, descriptor: Option<string>,
                               adapter': Option<string>, device': Option<string>, service': Option<string>,
                               characteristic': Option<string>, descriptor': Option<string>)
    requires OptionsAgreeIgnoringCase(adapter, adapter') && OptionsAgreeIgnoringCase(device, device')
    requires OptionsAgreeIgnoringCase(service, service') && OptionsAgreeIgnoringCase(characteristic, characteristic')
    requires OptionsAgreeIgnoringCase(descriptor, descriptor')
    ensures GetDbusPath(objs, adapter, device, service, characteristic, descriptor)
         == GetDbusPath(objs, adapter', device', service', characteristic', descriptor')
  {
    AdapterScopeIgnoresCase(objs, adapter, adapter');
    DbusLevelsAgree(device, service, characteristic, descriptor, device', service', characteristic', descriptor');
    GetDbusPathSteps(objs, adapter, device, service, characteristic, descriptor);
    GetDbusPathSteps(objs, adapter', device', service', characteristic', descriptor');
    var start := AdapterScope(objs, adapter);
    if start.Success? {
      ChainIgnoresCase(objs, start.value,
                       DbusLevels(device, service, characteristic, descriptor),
                       DbusLevels(device', service', characteristic', descriptor'));
    }
  }

  // ---------------------------------------------------------------------
  // get_profile_path
  // ---------------------------------------------------------------------

  lemma GetProfilePathSteps(objs: Snapshot, adapter: Option<string>, device: Option<string>, profile: Option<string>)
    ensures var start := AdapterScope(objs, adapter);
      GetProfilePath(objs, adapter, device, profile) ==
        if start.Failure? then Failure(start.error) else Chain(objs, start.value, ProfileLevels(device, profile))
  {
  }

  /** A chain whose only identifier is its first is that one step. */
  lemma ChainFirstOnly(objs: Snapshot, scope: Option<string>, levels: seq<Level>)
    requires |levels| > 0 && forall k :: 1 <= k < |levels| ==> levels[k].id.None?
    ensures Chain(objs, scope, levels) == Step(objs, scope, levels[0])
  {
    ChainUnfold(objs, scope, levels);
    assert forall k :: 0 <= k < |levels[1..]| ==> levels[1..][k].id.None? by {
      forall k | 0 <= k < |levels[1..]| ensures levels[1..][k].id.None? {
        assert levels[1..][k] == levels[k + 1];
      }
    }
  }

  /** The device lookup of `get_dbus_path` is the device level of the
      profile chain. */
  lemma ProfileDeviceLevel(objs: Snapshot, scope: Option<string>, device: Option<string>, profile: Option<string>)
    ensures Chain(objs, scope, Truncate(ProfileLevels(device, profile), 1))
         == Chain(objs, scope, DbusLevels(device, None, None, None))
  {
    ChainFirstOnly(objs, scope, Truncate(ProfileLevels(device, profile), 1));
    ChainFirstOnly(objs, scope, DbusLevels(device, None, None, None));
  }

  /** The adapter-only and the device chains of `get_dbus_path` are
      intermediate results of a successful profile chain. */
  lemma ProfileChainIntermediates(objs: Snapshot, scope: Option<string>, device: Option<string>,
                                  profile: Option<string>)
    requires Chain(objs, scope, ProfileLevels(device, profile)).Success?
    ensures var full := Chain(objs, scope, ProfileLevels(device, profile));
      && IntermediateOf(Chain(objs, scope, DbusLevels(None, None, None, None)), full)
      && IntermediateOf(Chain(objs, scope, DbusLevels(device, None, None, None)), full)
  {
    var levels := ProfileLevels(device, profile);
    ChainIntermediate(objs, scope, levels, 0);
    TruncateNothing(levels);
    DbusLevelsTruncate(None, None, None, None);
    ChainIntermediate(objs, scope, levels, 1);
    ProfileDeviceLevel(objs, scope, device, profile);
  }

  /** When a profile path resolves, the adapter-only and the adapter and
      device lookups of `get_dbus_path` also resolve, and each path they
      give is a prefix of the profile path. */
  lemma GetProfilePathIntermediates(objs: Snapshot, adapter: Option<string>, device: Option<string>,
                                    profile: Option<string>)
    requires GetProfilePath(objs, adapter, device, profile).Success?
    ensures var full := GetProfilePath(objs, adapter, device, profile);
      && IntermediateOf(GetDbusPath(objs, adapter, None, None, None, None), full)
      && IntermediateOf(GetDbusPath(objs, adapter, device, None, None, None), full)
  {
    GetProfilePathSteps(objs, adapter, device, profile);
    GetDbusPathSteps(objs, adapter, None, None, None, None);
    GetDbusPathSteps(objs, adapter, device, None, None, None);
    ProfileChainIntermediates(objs, AdapterScope(objs, adapter).value, device, profile);
  }
}

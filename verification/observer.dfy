/** The device-address extraction and the de-duplication of
    `examples/observer.py`.

    `path_to_addr` runs `re.search("dev_\S+?(?=\/|$)", path)`. The search
    is modelled literally (leftmost start, lazy run of non-space
    characters, lookahead for `/` or the end of the string) and then
    characterised without reference to the engine. */
module Observer {
  import opened Wrappers
  import opened Text

  /** Characters a D-Bus object path may contain. */
  predicate IsPathChar(c: char) {
    'A' <= c <= 'Z' || 'a' <= c <= 'z' || '0' <= c <= '9' || c == '_' || c == '/'
  }

  predicate IsObjectPathText(s: string) {
    forall i :: 0 <= i < |s| ==> IsPathChar(s[i])
  }

  /** `\s`, ASCII part: space, tab, line feed, vertical tab, form feed,
      carriage return. */
  predicate IsSpace(c: char) {
    c == ' ' || 9 <= c as int <= 13
  }

  predicate NoSpace(s: string, from: nat) {
    forall m :: from <= m < |s| ==> !IsSpace(s[m])
  }

  /** The text `dev_` starts at position `i`. */
  predicate DevAt(s: string, i: nat) {
    i + 4 <= |s| && s[i..i + 4] == "dev_"
  }

  /** No `/` strictly inside `s[from..to]`. */
  predicate SlashFree(s: string, from: nat, to: nat)
    requires to <= |s|
  {
    forall m :: from <= m < to ==> s[m] != '/'
  }

  /** The lazy run `\S+?` with its lookahead `(?=\/|$)`, the run's
      characters up to position `k` already consumed: the end of the
      shortest run that is followed by `/` or by the end of the string. */
  function LazyRunEnd(s: string, k: nat): (r: Option<nat>)
    requires 0 < k <= |s|
    ensures r.Some? ==>
      && k <= r.value <= |s|
      && (r.value == |s| || s[r.value] == '/')
      && SlashFree(s, k, r.value)
    ensures NoSpace(s, k) ==> r.Some?
    decreases |s| - k
  {
    if k == |s| || s[k] == '/' then Some(k)
    else if !IsSpace(s[k]) then LazyRunEnd(s, k + 1)
    else None
  }

  /** The match of the pattern starting at position `i`, as its end. */
  function MatchAt(s: string, i: nat): (r: Option<nat>)
    requires i <= |s|
    ensures r.Some? ==>
      && DevAt(s, i) && i + 4 < r.value <= |s|
      && (r.value == |s| || s[r.value] == '/')
      && SlashFree(s, i + 5, r.value)
    ensures NoSpace(s, 0) ==> (r.Some? <==> DevAt(s, i) && i + 4 < |s|)
  {
    if DevAt(s, i) && i + 4 < |s| && !IsSpace(s[i + 4]) then LazyRunEnd(s, i + 5) else None
  }

  /** `re.search` from position `i`: the leftmost start with a match, and
      that match's end. */
  function Search(s: string, i: nat): (r: Option<(nat, nat)>)
    requires i <= |s|
    ensures r.Some? ==>
      && i <= r.value.0 <= |s| && MatchAt(s, r.value.0) == Some(r.value.1)
      && forall j :: i <= j < r.value.0 ==> MatchAt(s, j).None?
    ensures r.None? ==> forall j :: i <= j <= |s| ==> MatchAt(s, j).None?
    decreases |s| - i
  {
    match MatchAt(s, i)
    case Some(e) => Some((i, e))
    case None => if i == |s| then None else Search(s, i + 1)
  }

  /** `b` is the first `dev_` of the path, and `b + 4 .. e` the non-empty
      run after it that ends at the next `/` (not counting its first
      character) or at the end of the path. */
  predicate FirstDevRun(s: string, b: nat, e: nat) {
    && b + 4 < e <= |s|
    && DevAt(s, b)
    && (forall j :: 0 <= j < b ==> !DevAt(s, j))
    && (e == |s| || s[e] == '/')
    && SlashFree(s, b + 5, e)
  }

  /** `path_to_addr`: the run after the first `dev_`, with `_` replaced by
      `:`; the empty string when there is no `dev_` followed by a
      character. */
  function PathToAddr(path: string): (r: string)
    requires IsObjectPathText(path)
    ensures r == "" <==> forall j :: 0 <= j < |path| - 4 ==> !DevAt(path, j)
    ensures r != "" ==>
      exists b: nat, e: nat :: FirstDevRun(path, b, e) && |r| == e - b - 4 && r == ReplaceChar(path[b + 4..e], '_', ':')
    ensures forall i :: 0 <= i < |r| ==> r[i] != '_'
  {
    assert NoSpace(path, 0);
    match Search(path, 0)
    case None =>
      assert forall j :: 0 <= j < |path| - 4 ==> !DevAt(path, j) by {
        forall j | 0 <= j < |path| - 4 ensures !DevAt(path, j) {
          assert MatchAt(path, j).None?;
        }
      }
      ""
    case Some((b, e)) =>
      assert forall j :: 0 <= j < b ==> !DevAt(path, j) by {
        forall j | 0 <= j < b ensures !DevAt(path, j) {
          assert MatchAt(path, j).None?;
        }
      }
      assert FirstDevRun(path, b, e);
      assert b < |path| - 4 && DevAt(path, b);
      ReplaceChar(path[b + 4..e], '_', ':')
  }

  /** The first `dev_` run of a path is unique. */
  lemma FirstDevRunUnique(s: string, b: nat, e: nat, b': nat, e': nat)
    requires FirstDevRun(s, b, e) && FirstDevRun(s, b', e')
    ensures b == b' && e == e'
  {
  }

  /** Characters of a Bluetooth address written `AA:BB:CC:DD:EE:FF`. */
  predicate IsAddressChar(c: char) {
    'A' <= c <= 'Z' || 'a' <= c <= 'z' || '0' <= c <= '9' || c == ':'
  }

  /** The path segment BlueZ gives a device: `dev_` and the address with
      `:` written as `_`. */
  function DeviceSegment(addr: string): (r: string)
    ensures |r| == |addr| + 4
  {
    "dev_" + ReplaceChar(addr, ':', '_')
  }

  /** The path BlueZ gives a device below `parent`, followed by `rest`. */
  function DevicePath(parent: string, addr: string, rest: string): (r: string)
    ensures |r| == |parent| + 1 + |addr| + 4 + |rest|
  {
    parent + "/" + DeviceSegment(addr) + rest
  }

  /** The preconditions of the round trip: an adapter path without `dev_`,
      an address, and deeper segments. */
  predicate DevicePathParts(parent: string, addr: string, rest: string) {
    && IsObjectPathText(parent) && (forall j :: 0 <= j < |parent| ==> !DevAt(parent, j))
    && |addr| > 0 && (forall i :: 0 <= i < |addr| ==> IsAddressChar(addr[i]))
    && IsObjectPathText(rest) && (rest == "" || rest[0] == '/')
  }

  /** Where each part sits inside a device path. */
  lemma DevicePathLayout(parent: string, addr: string, rest: string)
    ensures var s := DevicePath(parent, addr, rest);
      var b := |parent| + 1;
      var e := b + 4 + |addr|;
      && s[..|parent|] == parent && s[|parent|] == '/'
      && s[b..b + 4] == "dev_" && s[b + 4..e] == ReplaceChar(addr, ':', '_') && s[e..] == rest
  {
    var s := DevicePath(parent, addr, rest);
    var b := |parent| + 1;
    assert s == parent + "/" + "dev_" + ReplaceChar(addr, ':', '_') + rest;
  }

  lemma DevicePathText(parent: string, addr: string, rest: string)
    requires DevicePathParts(parent, addr, rest)
    ensures IsObjectPathText(DevicePath(parent, addr, rest))
  {
    var s := DevicePath(parent, addr, rest);
    var b := |parent| + 1;
    var e := b + 4 + |addr|;
    var seg := ReplaceChar(addr, ':', '_');
    DevicePathLayout(parent, addr, rest);
    forall i | 0 <= i < |s| ensures IsPathChar(s[i]) {
      if i < |parent| {
        assert s[i] == s[..|parent|][i];
      } else if i == |parent| {
      } else if i < b + 4 {
        assert s[i] == s[b..b + 4][i - b];
      } else if i < e {
        assert s[i] == s[b + 4..e][i - b - 4] == seg[i - b - 4];
      } else {
        assert s[i] == s[e..][i - e];
      }
    }
  }

  /** The device segment holds the first `dev_` run of a device path. */
  lemma DevicePathFirstRun(parent: string, addr: string, rest: string)
    requires DevicePathParts(parent, addr, rest)
    ensures FirstDevRun(DevicePath(parent, addr, rest), |parent| + 1, |parent| + 5 + |addr|)
  {
    var s := DevicePath(parent, addr, rest);
    var b := |parent| + 1;
    var e := b + 4 + |addr|;
    var seg := ReplaceChar(addr, ':', '_');
    DevicePathLayout(parent, addr, rest);
    forall j | 0 <= j < b ensures !DevAt(s, j) {
      if j + 4 <= |parent| {
        assert s[j..j + 4] == parent[j..j + 4] by {
          assert s[..|parent|] == parent;
        }
        assert !DevAt(parent, j);
      } else {
        assert s[j..j + 4][|parent| - j] == s[|parent|] == '/';
      }
    }
    forall m | b + 5 <= m < e ensures s[m] != '/' {
      assert s[m] == s[b + 4..e][m - b - 4] == seg[m - b - 4];
    }
    if e < |s| {
      assert s[e] == s[e..][0] == rest[0];
    }
  }

  /** Round trip: `path_to_addr` of a device path built from an adapter
      path without `dev_`, the device segment of an address, and any deeper
      segments gives the address back. */
  lemma PathToAddrOfDevicePath(parent: string, addr: string, rest: string)
    requires DevicePathParts(parent, addr, rest)
    ensures IsObjectPathText(DevicePath(parent, addr, rest))
    ensures PathToAddr(DevicePath(parent, addr, rest)) == addr
  {
    var s := DevicePath(parent, addr, rest);
    var b := |parent| + 1;
    var e := b + 4 + |addr|;
    DevicePathText(parent, addr, rest);
    DevicePathFirstRun(parent, addr, rest);
    DevicePathLayout(parent, addr, rest);
    var r := PathToAddr(s);
    assert r != "" by {
      assert b < |s| - 4 && DevAt(s, b);
    }
    var b': nat, e': nat :| FirstDevRun(s, b', e') && r == ReplaceChar(s[b' + 4..e'], '_', ':');
    FirstDevRunUnique(s, b, e, b', e');
    ReplaceCharRoundTrip(addr, ':', '_');
  }

  /** A path without the letter `d` contains no `dev_`. */
  lemma NoDevWithoutD(s: string)
    requires forall i :: 0 <= i < |s| ==> s[i] != 'd'
    ensures forall j :: 0 <= j < |s| ==> !DevAt(s, j)
  {
    forall j | 0 <= j < |s| && j + 4 <= |s| ensures !DevAt(s, j) {
      assert s[j..j + 4][0] == s[j];
    }
  }

  lemma ExampleSegment()
    ensures DeviceSegment("E4:43:33:7E:54:1C") == "dev_E4_43_33_7E_54_1C"
  {
    var r := ReplaceChar("E4:43:33:7E:54:1C", ':', '_');
    assert |r| == 17;
    forall i | 0 <= i < 17
      ensures r[i] == "E4_43_33_7E_54_1C"[i]
    {
    }
    assert r == "E4_43_33_7E_54_1C";
  }

  lemma ExampleConcat()
    ensures "/org/bluez/hci0" + "/" + "dev_E4_43_33_7E_54_1C" + "/service002a"
         == "/org/bluez/hci0/dev_E4_43_33_7E_54_1C/service002a"
  {
    assert "/org/bluez/hci0" + "/" == "/org/bluez/hci0/";
    assert "/org/bluez/hci0/" + "dev_E4_43_33_7E_54_1C" == "/org/bluez/hci0/dev_E4_43_33_7E_54_1C";
    assert "/org/bluez/hci0/dev_E4_43_33_7E_54_1C" + "/service002a"
        == "/org/bluez/hci0/dev_E4_43_33_7E_54_1C/service002a";
  }

  lemma ExampleDevicePath()
    ensures DevicePath("/org/bluez/hci0", "E4:43:33:7E:54:1C", "/service002a")
         == "/org/bluez/hci0/dev_E4_43_33_7E_54_1C/service002a"
  {
    ExampleSegment();
    ExampleConcat();
  }

  lemma ExampleParts()
    ensures DevicePathParts("/org/bluez/hci0", "E4:43:33:7E:54:1C", "/service002a")
  {
    NoDevWithoutD("/org/bluez/hci0");
  }

  /** The path from the observer's test data. */
  lemma PathToAddrExample()
    ensures IsObjectPathText("/org/bluez/hci0/dev_E4_43_33_7E_54_1C/service002a")
      && PathToAddr("/org/bluez/hci0/dev_E4_43_33_7E_54_1C/service002a") == "E4:43:33:7E:54:1C"
  {
    ExampleParts();
    PathToAddrOfDevicePath("/org/bluez/hci0", "E4:43:33:7E:54:1C", "/service002a");
    ExampleDevicePath();
  }

  predicate NoDuplicates(s: seq<string>) {
    forall i, j :: 0 <= i < j < |s| ==> s[i] != s[j]
  }

  /** `Observer.intf_added`, on the keys of `_devices` in insertion order:
      the sender's address is added unless it is already a key. The
      `is not None` guard is always true, since `path_to_addr` returns a
      string. */
  function IntfAdded(known: seq<string>, sender: string): (r: seq<string>)
    requires IsObjectPathText(sender)
    ensures |known| <= |r| <= |known| + 1 && r[..|known|] == known
    ensures forall a :: a in r <==> a in known || a == PathToAddr(sender)
    ensures NoDuplicates(known) ==> NoDuplicates(r)
  {
    var addr := PathToAddr(sender);
    if addr !in known then known + [addr] else known
  }

  /** A repeated announcement from the same sender leaves the keys as they
      were. */
  lemma IntfAddedIdempotent(known: seq<string>, sender: string)
    requires IsObjectPathText(sender)
    ensures IntfAdded(IntfAdded(known, sender), sender) == IntfAdded(known, sender)
  {
  }

  /** Announcements for objects below one device add at most one key. */
  lemma IntfAddedSameDevice(known: seq<string>, parent: string, addr: string, rest: string, rest': string)
    requires DevicePathParts(parent, addr, rest) && DevicePathParts(parent, addr, rest')
    ensures IsObjectPathText(DevicePath(parent, addr, rest)) && IsObjectPathText(DevicePath(parent, addr, rest'))
    ensures var once := IntfAdded(known, DevicePath(parent, addr, rest));
      IntfAdded(once, DevicePath(parent, addr, rest')) == once
  {
    PathToAddrOfDevicePath(parent, addr, rest);
    PathToAddrOfDevicePath(parent, addr, rest');
  }
}

/** The device record the platform plugins report (`MidiBluetoothDeviceData`),
    its equality on (address, name), the connected / not-connected queries
    over one decoded device list, and the LINQ `Union` the connector uses to
    merge the two answers. */
module DeviceData {
  import opened Text

  /** `ConnectionType`; the enum's members are not part of this model, only
      the fallback the JSON converter uses for an unknown name. */
  datatype ConnectionType = Unknow | Named(tag: string)

  datatype DeviceRecord = DeviceRecord(
    macAddress: string,
    deviceName: string,
    isConnected: bool,
    connectionType: ConnectionType,
    sourceId: int,
    destinationId: int)

  /** The constructor: a missing (null) address is rejected with an
      `ArgumentNullException`, every other field is stored as given. */
  function NewDeviceRecord(macAddress: Option<string>, deviceName: string, isConnected: bool,
                           connectionType: ConnectionType, sourceId: int, destinationId: int)
    : (r: Option<DeviceRecord>)
    ensures r.None? <==> macAddress.None?
    ensures r.Some? ==> r.value.macAddress == macAddress.value && r.value.deviceName == deviceName
    ensures r.Some? ==> r.value.isConnected == isConnected && r.value.connectionType == connectionType
    ensures r.Some? ==> r.value.sourceId == sourceId && r.value.destinationId == destinationId
  {
    match macAddress
    case None => None
    case Some(mac) => Some(DeviceRecord(mac, deviceName, isConnected, connectionType, sourceId, destinationId))
  }

  /** What `Equals` compares: the address and the name, nothing else. */
  type Key = (string, string)

  function KeyOf(d: DeviceRecord): Key { (d.macAddress, d.deviceName) }

  /** `Equals`. */
  predicate SameDevice(a: DeviceRecord, b: DeviceRecord)
  {
    a.macAddress == b.macAddress && a.deviceName == b.deviceName
  }

  /** `GetHashCode` hashes the string `"{MacAddress}-{DeviceName}"`. */
  function HashKey(d: DeviceRecord): (k: string)
    ensures |k| == |d.macAddress| + 1 + |d.deviceName|
    ensures k[..|d.macAddress|] == d.macAddress && k[|d.macAddress|] == '-'
    ensures k[|d.macAddress| + 1..] == d.deviceName
  {
    d.macAddress + "-" + d.deviceName
  }

  /** Equality ignores the connection state, the connection type and both
      ids, and it is compatible with the hash: equal records hash alike. */
  lemma SameDeviceIgnoresState(a: DeviceRecord, b: DeviceRecord)
    ensures SameDevice(a, b) <==> KeyOf(a) == KeyOf(b)
    ensures SameDevice(a, b) ==> HashKey(a) == HashKey(b)
  {
  }

  /** The hash string does not determine the record: two records that are
      not equal can share it (a `-` inside an address or a name). Equality
      is therefore decided by `Equals`, never by the hash alone. */
  lemma HashKeyCollision()
    ensures var a := DeviceRecord("A-B", "C", false, Unknow, 0, 0);
            var b := DeviceRecord("A", "B-C", false, Unknow, 0, 0);
            HashKey(a) == HashKey(b) && !SameDevice(a, b)
  {
  }

  // ---------------------------------------------------------------------
  // The two platform queries over one decoded list
  // ---------------------------------------------------------------------

  /** `GetMidiDevices`: `Where(bt => !bt.IsConnected)`. */
  function NotConnectedDevices(list: seq<DeviceRecord>): (r: seq<DeviceRecord>)
    ensures forall d :: d in r <==> d in list && !d.isConnected
    ensures |r| <= |list|
  {
    if list == [] then []
    else if !list[0].isConnected then [list[0]] + NotConnectedDevices(list[1..])
    else NotConnectedDevices(list[1..])
  }

  /** `GetConnectedMidiDevices`: `Where(bt => bt.IsConnected)`. */
  function ConnectedDevices(list: seq<DeviceRecord>): (r: seq<DeviceRecord>)
    ensures forall d :: d in r <==> d in list && d.isConnected
    ensures |r| <= |list|
  {
    if list == [] then []
    else if list[0].isConnected then [list[0]] + ConnectedDevices(list[1..])
    else ConnectedDevices(list[1..])
  }

  /** The two queries partition the decoded list: every entry lands in
      exactly one of them, with its multiplicity. */
  lemma {:induction false} QueriesPartition(list: seq<DeviceRecord>)
    ensures multiset(ConnectedDevices(list)) + multiset(NotConnectedDevices(list)) == multiset(list)
    ensures |ConnectedDevices(list)| + |NotConnectedDevices(list)| == |list|
  {
    if list != [] {
      QueriesPartition(list[1..]);
      assert list == [list[0]] + list[1..];
    }
  }

  /** Both queries keep the list's order: the query of a concatenation is
      the concatenation of the queries, and a one-entry list keeps its
      entry exactly when it passes the test. Together these determine each
      query on every list, so each is the order-preserving filter `Where`
      computes, duplicates included. */
  lemma {:induction false} QueriesPreserveOrder(a: seq<DeviceRecord>, b: seq<DeviceRecord>, d: DeviceRecord)
    ensures NotConnectedDevices(a + b) == NotConnectedDevices(a) + NotConnectedDevices(b)
    ensures ConnectedDevices(a + b) == ConnectedDevices(a) + ConnectedDevices(b)
    ensures NotConnectedDevices([d]) == (if d.isConnected then [] else [d])
    ensures ConnectedDevices([d]) == (if d.isConnected then [d] else [])
  {
    QueriesUnfold([d]);
    assert [d][1..] == [];
    NotConnectedAppend(a, b);
    ConnectedAppend(a, b);
  }

  lemma {:induction false} NotConnectedAppend(a: seq<DeviceRecord>, b: seq<DeviceRecord>)
    ensures NotConnectedDevices(a + b) == NotConnectedDevices(a) + NotConnectedDevices(b)
  {
    if a == [] {
      assert a + b == b;
    } else {
      var h: seq<DeviceRecord> := if a[0].isConnected then [] else [a[0]];
      HeadTail(a, b);
      QueriesUnfold(a);
      QueriesUnfold(a + b);
      NotConnectedAppend(a[1..], b);
      StepAppend(NotConnectedDevices(a), NotConnectedDevices(a + b), h,
                 NotConnectedDevices(a[1..]), NotConnectedDevices(a[1..] + b), NotConnectedDevices(b));
    }
  }

  lemma {:induction false} ConnectedAppend(a: seq<DeviceRecord>, b: seq<DeviceRecord>)
    ensures ConnectedDevices(a + b) == ConnectedDevices(a) + ConnectedDevices(b)
  {
    if a == [] {
      assert a + b == b;
    } else {
      var h: seq<DeviceRecord> := if a[0].isConnected then [a[0]] else [];
      HeadTail(a, b);
      QueriesUnfold(a);
      QueriesUnfold(a + b);
      ConnectedAppend(a[1..], b);
      StepAppend(ConnectedDevices(a), ConnectedDevices(a + b), h,
                 ConnectedDevices(a[1..]), ConnectedDevices(a[1..] + b), ConnectedDevices(b));
    }
  }

  lemma HeadTail(a: seq<DeviceRecord>, b: seq<DeviceRecord>)
    requires a != []
    ensures a + b != [] && (a + b)[0] == a[0] && (a + b)[1..] == a[1..] + b
  {
  }

  /** The inductive step shared by both queries: a head prepended to both
      sides of an append equation. */
  lemma StepAppend<T>(x: seq<T>, y: seq<T>, h: seq<T>, t: seq<T>, tb: seq<T>, bb: seq<T>)
    requires x == h + t && y == h + tb && tb == t + bb
    ensures y == x + bb
  {
  }

  /** One step of each query on a non-empty list. */
  lemma QueriesUnfold(list: seq<DeviceRecord>)
    requires list != []
    ensures NotConnectedDevices(list)
         == (if list[0].isConnected then [] else [list[0]]) + NotConnectedDevices(list[1..])
    ensures ConnectedDevices(list)
         == (if list[0].isConnected then [list[0]] else []) + ConnectedDevices(list[1..])
  {
  }

  // ---------------------------------------------------------------------
  // LINQ Union
  // ---------------------------------------------------------------------

  function KeysOf(s: seq<DeviceRecord>): set<Key>
  {
    set d | d in s :: KeyOf(d)
  }

  /** No two entries are `Equals`. */
  predicate NoDuplicates(s: seq<DeviceRecord>)
  {
    forall i, j :: 0 <= i < j < |s| ==> KeyOf(s[i]) != KeyOf(s[j])
  }

  /** The first entry of `s` that is `Equals` to a record with key `k`. */
  function FirstWithKey(s: seq<DeviceRecord>, k: Key): (r: Option<DeviceRecord>)
    ensures r.Some? <==> k in KeysOf(s)
    ensures r.Some? ==> r.value in s && KeyOf(r.value) == k
  {
    if s == [] then None
    else if KeyOf(s[0]) == k then Some(s[0])
    else
      var r := FirstWithKey(s[1..], k);
      assert KeysOf(s) == {KeyOf(s[0])} + KeysOf(s[1..]);
      r
  }

  lemma {:induction false} FirstWithKeyAppend(a: seq<DeviceRecord>, b: seq<DeviceRecord>, k: Key)
    ensures k in KeysOf(a) ==> FirstWithKey(a + b, k) == FirstWithKey(a, k)
    ensures k !in KeysOf(a) ==> FirstWithKey(a + b, k) == FirstWithKey(b, k)
  {
    if a != [] {
      assert (a + b)[1..] == a[1..] + b;
      assert KeysOf(a) == {KeyOf(a[0])} + KeysOf(a[1..]);
      FirstWithKeyAppend(a[1..], b, k);
    } else {
      assert a + b == b;
    }
  }

  /** The lazy set-based enumeration behind `Distinct` and `Union`: yield
      each entry whose key has not been yielded yet, skipping the keys in
      `seen`. */
  function DistinctAfter(s: seq<DeviceRecord>, seen: set<Key>): (r: seq<DeviceRecord>)
    ensures KeysOf(r) == KeysOf(s) - seen
    decreases |s|
  {
    if s == [] then []
    else
      var tail := s[1..];
      assert KeysOf(s) == {KeyOf(s[0])} + KeysOf(tail);
      if KeyOf(s[0]) in seen then
        DistinctAfter(tail, seen)
      else
        var rest := DistinctAfter(tail, seen + {KeyOf(s[0])});
        assert KeysOf([s[0]] + rest) == {KeyOf(s[0])} + KeysOf(rest);
        [s[0]] + rest
  }

  /** The enumeration yields each key at most once. */
  lemma {:induction false} DistinctAfterNoDuplicates(s: seq<DeviceRecord>, seen: set<Key>)
    ensures NoDuplicates(DistinctAfter(s, seen))
    decreases |s|
  {
    if s != [] && KeyOf(s[0]) !in seen {
      var rest := DistinctAfter(s[1..], seen + {KeyOf(s[0])});
      var r := [s[0]] + rest;
      DistinctAfterNoDuplicates(s[1..], seen + {KeyOf(s[0])});
      forall i, j | 0 <= i < j < |r| ensures KeyOf(r[i]) != KeyOf(r[j]) {
        assert r[j] == rest[j - 1];
        assert KeyOf(rest[j - 1]) in KeysOf(rest);
        if i > 0 { assert r[i] == rest[i - 1]; }
      }
    } else if s != [] {
      DistinctAfterNoDuplicates(s[1..], seen);
    }
  }

  /** Past a first entry with another key, the search goes on in the tail. */
  lemma FirstWithKeySkip(s: seq<DeviceRecord>, k: Key)
    requires s != [] && KeyOf(s[0]) != k
    ensures FirstWithKey(s, k) == FirstWithKey(s[1..], k)
  {
  }

  /** Every entry the enumeration yields is the first in `s` with its key. */
  lemma {:induction false} DistinctAfterKeepsFirst(s: seq<DeviceRecord>, seen: set<Key>)
    ensures forall i :: 0 <= i < |DistinctAfter(s, seen)| ==>
              FirstWithKey(s, KeyOf(DistinctAfter(s, seen)[i])) == Some(DistinctAfter(s, seen)[i])
    decreases |s|
  {
    if s != [] {
      var r := DistinctAfter(s, seen);
      if KeyOf(s[0]) in seen {
        assert r == DistinctAfter(s[1..], seen);
        DistinctAfterKeepsFirst(s[1..], seen);
        forall i | 0 <= i < |r| ensures FirstWithKey(s, KeyOf(r[i])) == Some(r[i]) {
          assert KeyOf(r[i]) in KeysOf(r);
          FirstWithKeySkip(s, KeyOf(r[i]));
        }
      } else {
        var rest := DistinctAfter(s[1..], seen + {KeyOf(s[0])});
        assert r == [s[0]] + rest;
        DistinctAfterKeepsFirst(s[1..], seen + {KeyOf(s[0])});
        forall i | 1 <= i < |r| ensures FirstWithKey(s, KeyOf(r[i])) == Some(r[i]) {
          assert r[i] == rest[i - 1] && rest[i - 1] in rest;
          assert KeyOf(rest[i - 1]) in KeysOf(rest);
          assert FirstWithKey(s[1..], KeyOf(rest[i - 1])) == Some(rest[i - 1]);
          FirstWithKeySkip(s, KeyOf(r[i]));
        }
      }
    }
  }

  /** `first.Union(second)`: the entries of `first` then of `second`, each
      key once, the first occurrence winning. */
  function Union(first: seq<DeviceRecord>, second: seq<DeviceRecord>): (r: seq<DeviceRecord>)
    ensures NoDuplicates(r)
    ensures KeysOf(r) == KeysOf(first) + KeysOf(second)
  {
    DistinctAfterNoDuplicates(first + second, {});
    KeysOfAppend(first, second);
    DistinctAfter(first + second, {})
  }

  /** The connector's device list: `GetConnectedMidiDevices().Union(GetMidiDevices())`
      over one decoded platform list. */
  function DeviceUnion(platform: seq<DeviceRecord>): (r: seq<DeviceRecord>)
    ensures NoDuplicates(r)
    ensures KeysOf(r) == KeysOf(platform)
  {
    QueriesCoverKeys(platform);
    Union(ConnectedDevices(platform), NotConnectedDevices(platform))
  }

  /** Every key of the list is the key of a connected or a not-connected
      entry. */
  lemma QueriesCoverKeys(platform: seq<DeviceRecord>)
    ensures KeysOf(ConnectedDevices(platform)) + KeysOf(NotConnectedDevices(platform)) == KeysOf(platform)
  {
    var c, n := ConnectedDevices(platform), NotConnectedDevices(platform);
    forall d | d in platform ensures KeyOf(d) in KeysOf(c) + KeysOf(n) {
      if d.isConnected { assert d in c; } else { assert d in n; }
    }
  }

  lemma KeysOfAppend(a: seq<DeviceRecord>, b: seq<DeviceRecord>)
    ensures KeysOf(a + b) == KeysOf(a) + KeysOf(b)
  {
    assert forall d :: d in a + b <==> d in a || d in b;
  }

  /** The merged list holds every (address, name) the platform reports,
      once each, and every entry is one the platform reported. A key that is
      reported both connected and not connected appears once, as connected:
      the connected query comes first and its entry wins. */
  lemma DeviceUnionProperties(platform: seq<DeviceRecord>)
    ensures var u := DeviceUnion(platform);
            NoDuplicates(u) && KeysOf(u) == KeysOf(platform)
    ensures forall d :: d in DeviceUnion(platform) ==> d in platform
    ensures forall d :: d in DeviceUnion(platform) ==>
              (d.isConnected <==> KeyOf(d) in KeysOf(ConnectedDevices(platform)))
  {
    var c, n := ConnectedDevices(platform), NotConnectedDevices(platform);
    var u := DeviceUnion(platform);
    DistinctAfterKeepsFirst(c + n, {});
    assert u == DistinctAfter(c + n, {});
    forall d | d in u
      ensures d in platform
      ensures d.isConnected <==> KeyOf(d) in KeysOf(c)
    {
      var i :| 0 <= i < |u| && u[i] == d;
      assert FirstWithKey(c + n, KeyOf(d)) == Some(d);
      FirstWithKeyAppend(c, n, KeyOf(d));
      if KeyOf(d) in KeysOf(c) {
        assert FirstWithKey(c, KeyOf(d)).value in c;
      } else {
        assert FirstWithKey(n, KeyOf(d)).value in n;
      }
    }
  }
}

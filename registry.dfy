/**
  The driver registry scan, `InstalledAsioDrivers`
  (include/asio-wrapper.cpp:430-489), over an abstract copy of the
  registry: the records the key enumeration of HKLM\SOFTWARE\ASIO yields, in
  enumeration order, or nothing when the root key cannot be opened.

  Deviation of the source that the model keeps as written: the open of the
  root key is tested with `SUCCEEDED` (include/asio-wrapper.cpp:440), an
  HRESULT test, but `RegOpenKeyEx` returns a Win32 status, which is never
  negative. The early return at include/asio-wrapper.cpp:443-444 therefore
  never runs. An unopenable root falls through to `RegEnumKeyEx` on the
  unopened handle, whose first call fails and ends the loop with the same
  empty list.
*/
module Registry {
  import opened Wrappers

  /** A C string: the characters before its NUL terminator. */
  type CString = s: string | '\0' !in s

  /** An opaque, non-null COM interface pointer (an `IASIO *`). */
  datatype Handle = Handle(id: nat)

  /**
    One child key as the enumeration reports it: its name, and the string
    values CLSID and Description, None when `RegGetValue` fails for them
    (value absent, of another type, or not fitting in the 256-byte buffer).
  */
  datatype KeyRecord = KeyRecord(keyName: CString, clsid: Option<CString>, description: Option<CString>)

  /**
    The registry as the scan sees it: None when `RegOpenKeyEx` fails (the
    enumeration on the unopened handle then fails at once), otherwise the keys
    `RegEnumKeyEx` returns before its first result other than ERROR_SUCCESS.
  */
  type Store = Option<seq<KeyRecord>>

  /**
    `struct AsioDriver` (include/asio-wrapper.hpp:553-558). `device` is None
    while the C++ field is still indeterminate: the scan never sets it, and only
    a successful open stores a pointer in it.
  */
  datatype AsioDriver = AsioDriver(name: CString, clsid: CString, device: Option<Handle>)

  /** The driver name: the Description value, or the key's own name when that is missing. */
  function NameOf(k: KeyRecord): CString {
    if k.description.Some? then k.description.value else k.keyName
  }

  /** What one key contributes to the scan: nothing when its CLSID cannot be read. */
  function Survivor(k: KeyRecord): seq<AsioDriver> {
    if k.clsid.Some? then [AsioDriver(NameOf(k), k.clsid.value, None)] else []
  }

  /** The scan of a key list, one key after another. */
  function Scanned(keys: seq<KeyRecord>): seq<AsioDriver> {
    if keys == [] then [] else Scanned(keys[..|keys| - 1]) + Survivor(keys[|keys| - 1])
  }

  /** The scan of the whole store: empty when the root key cannot be opened. */
  function ScanOf(store: Store): seq<AsioDriver> {
    if store.None? then [] else Scanned(store.value)
  }

  /** InstalledAsioDrivers: the loop of include/asio-wrapper.cpp:447-483. */
  method InstalledAsioDrivers(store: Store) returns (result: seq<AsioDriver>)
    ensures result == ScanOf(store)
    ensures store.None? ==> result == []
  {
    result := [];
    // The SUCCEEDED test on a Win32 status never takes the early return; an
    // unopened root key enumerates nothing.
    var keys := if store.None? then [] else store.value;
    var index := 0;
    while index < |keys|
      invariant 0 <= index <= |keys|
      invariant result == Scanned(keys[..index])
    {
      var key := keys[index];
      index := index + 1;
      assert keys[..index][..index - 1] == keys[..index - 1];
      if key.clsid.None? {
        continue;
      }
      var name := if key.description.None? then key.keyName else key.description.value;
      result := result + [AsioDriver(name, key.clsid.value, None)];
    }
    assert keys[..|keys|] == keys;
  }

  /** The scan handles the keys in enumeration order: it distributes over concatenation. */
  lemma {:induction false} ScannedAppend(a: seq<KeyRecord>, b: seq<KeyRecord>)
    ensures Scanned(a + b) == Scanned(a) + Scanned(b)
  {
    if b == [] {
      assert a + b == a;
    } else {
      var front := b[..|b| - 1];
      assert (a + b)[..|a + b| - 1] == a + front;
      ScannedAppend(a, front);
    }
  }

  /** A key whose CLSID cannot be read is skipped, and the scan carries on after it. */
  lemma {:induction false} SkippedKey(a: seq<KeyRecord>, k: KeyRecord, b: seq<KeyRecord>)
    requires k.clsid.None?
    ensures Scanned(a + [k] + b) == Scanned(a) + Scanned(b)
  {
    var ak := a + [k];
    ScannedAppend(ak, b);
    ScannedAppend(a, [k]);
    assert [k][..0] == [];
    assert Scanned([k]) == [];
    assert Scanned(ak) == Scanned(a);
  }

  /** The scan yields at most one driver per key. */
  lemma {:induction false} ScannedLength(keys: seq<KeyRecord>)
    ensures |Scanned(keys)| <= |keys|
  {
    if keys != [] {
      ScannedLength(keys[..|keys| - 1]);
    }
  }

  /**
    A driver is in the scan exactly when some key with a readable CLSID
    produces it: that CLSID, the Description or else the key name, and no
    device yet.
  */
  lemma {:induction false} ScannedMembers(keys: seq<KeyRecord>, d: AsioDriver)
    ensures d in Scanned(keys) <==>
      exists i :: 0 <= i < |keys| && keys[i].clsid.Some? && d == AsioDriver(NameOf(keys[i]), keys[i].clsid.value, None)
  {
    if keys != [] {
      var front := keys[..|keys| - 1];
      ScannedMembers(front, d);
      if d in Scanned(front) {
        var i :| 0 <= i < |front| && front[i].clsid.Some? && d == AsioDriver(NameOf(front[i]), front[i].clsid.value, None);
        assert keys[i] == front[i];
      }
      if exists i :: 0 <= i < |keys| && keys[i].clsid.Some? && d == AsioDriver(NameOf(keys[i]), keys[i].clsid.value, None) {
        var i :| 0 <= i < |keys| && keys[i].clsid.Some? && d == AsioDriver(NameOf(keys[i]), keys[i].clsid.value, None);
        if i < |keys| - 1 {
          assert front[i] == keys[i];
        }
      }
    }
  }
}

/**
  The driver list, slot table and activation manager of
  include/asio-wrapper.cpp, with the indexed ASIO* entry points that forward
  to the driver in a slot.

  The process-wide state of the source is one object of class Host:
  `theDrivers` (include/asio-wrapper.cpp:428), the slot table `DriverVect`
  (include/asio-wrapper.cpp:132), and the fields `numdrv` and `curIndex` of
  the one AsioDrivers object that `loadAsioDriver` creates on first use
  (`created` says whether it exists yet, include/asio-wrapper.cpp:133).

  Foreign calls are inputs. The registry is a Store read whenever a lazy
  rescan happens; `CLSIDFromString` is a function from a CLSID string to
  its HRESULT and result; the one `CoCreateInstance` a call can make is an
  Activation; what a driver answers to an IASIO method is passed in as that
  method's result. The ghost multisets `activated` and `released` count, per
  interface pointer, the successful activations and the calls of `Release`;
  the ghost sequence `calls` logs every IASIO method called, so that "calls
  no driver method" can be stated.

  Deviations of the source that the model keeps as written:
  - the rollback of loadDriver is dead code: the name it remembers is the target's
    own (include/asio-wrapper.cpp:708), so the guard at line 721 never holds;
  - a refused activation makes loadDriver return true with no driver loaded
    (include/asio-wrapper.cpp:719-724);
  - DRVERR_INVALID_PARAM has no case in loadDriver's switch, so the search
    goes on to the next entry (include/asio-wrapper.cpp:712-725);
  - ASIOInit, when the driver's init fails, only empties the slot: it neither
    releases the driver nor resets curIndex (include/asio-wrapper.cpp:179-182);
  - asioCloseDriver releases the stored pointer without clearing it and
    without a null check (include/asio-wrapper.cpp:573-577);
  - indices are checked against numdrv, which the lazy rescans never refresh
    (include/asio-wrapper.cpp:529-531, 538), and DriverVect, with 8 cells, is
    written at any index below numdrv (include/asio-wrapper.cpp:553), so
    creating the driver list requires at most 8 installed drivers;
  - asioGetDriverName compares the name's length with drvnamesize as size_t,
    so a negative size lets the copy go ahead (include/asio-wrapper.cpp:605);
  - asioGetDriverCLSID returns DRVERR_DEVICE_NOT_FOUND also on success
    (include/asio-wrapper.cpp:647);
  - getDriverNames returns 0 when there are exactly maxDrivers devices
    (include/asio-wrapper.cpp:687-693);
  - ASIOExit(index) closes the driver at curIndex, not necessarily the one at
    index, then empties slot index, and always returns ASE_OK
    (include/asio-wrapper.cpp:157-164);
  - the ASIO* entry points never check index (include/asio-wrapper.cpp:141):
    they require 0 <= index < 8.
*/
module Asio {
  import opened Wrappers
  import opened Registry
  import GuidCodec

  /** The number of cells of DriverVect. */
  const Capacity: int := 8

  // ASIOError values (include/asio-wrapper.hpp:173-181)
  const AseOk: int := 0
  const AseNotPresent: int := -1000

  // Driver-list errors (include/asio-wrapper.hpp:528-531)
  const DrvErrInvalidParam: int := -5001
  const DrvErrDeviceAlreadyOpen: int := -5002
  const DrvErrDeviceNotFound: int := -5003

  /** ASIOSTFloat32LSB (include/asio-wrapper.hpp:157). */
  const AsioStFloat32Lsb: int := 19

  /** The name ASIOInit writes before asking the driver (include/asio-wrapper.cpp:178). */
  const UnsetName: CString := " Unset "

  /** The message ASIOInit writes after a successful init (include/asio-wrapper.cpp:188). */
  const NoErrorMessage: CString := "No error with the driver (yet)\n"

  /** The size getCurrentDriverName and getDriverNames give to a name buffer (include/asio-wrapper.cpp:675, 685). */
  const NameBufferSize: int := 32

  /** What `CLSIDFromString` returns: an HRESULT, and the CLSID it wrote. */
  datatype ClsidConversion = ClsidConversion(status: int, clsid: GuidCodec.Guid)

  /** The SUCCEEDED macro. */
  predicate Succeeded(hr: int) {
    hr >= 0
  }

  /**
    The result of the one `CoCreateInstance` call: S_OK with a new interface
    pointer, or any other HRESULT.
  */
  datatype Activation = Activated(handle: Handle) | Refused

  /** The bits of an ASIOSampleRate (a double), passed through and never interpreted. */
  type SampleRate = bv64

  /** The IASIO methods (include/asio-wrapper.hpp:471-497) the entry points call. */
  datatype DriverOp =
    | Init(sysRef: nat)
    | GetDriverName
    | GetDriverVersion
    | Start
    | Stop
    | OutputReady
    | ControlPanel
    | Future(selector: int)
    | GetSampleRate
    | GetBufferSize
    | GetClockSources
    | GetChannels
    | GetChannelInfo
    | GetLatencies
    | GetSamplePosition
    | CanSampleRate(rate: SampleRate)
    | SetSampleRate(rate: SampleRate)
    | SetClockSource(reference: int)
    | CreateBuffers(numChannels: int, bufferSize: int)
    | DisposeBuffers

  /** One call of an IASIO method on a driver. */
  datatype DriverCall = DriverCall(handle: Handle, op: DriverOp)

  /** ASIODriverInfo (include/asio-wrapper.hpp:402-410); the strings are the C strings in its buffers. */
  datatype DriverInfo = DriverInfo(asioVersion: int, driverVersion: int, name: CString,
                                   errorMessage: CString, sysRef: nat)

  /** The four outputs of ASIOGetBufferSize. */
  datatype BufferSizes = BufferSizes(minSize: int, maxSize: int, preferredSize: int, granularity: int)

  /** ASIOChannelInfo (include/asio-wrapper.hpp:245-257). */
  datatype ChannelInfo = ChannelInfo(channel: int, isInput: int, isActive: int, channelGroup: int,
                                     sampleType: int, name: CString)

  /** ASIOSamples and ASIOTimeStamp: a 64-bit count as two 32-bit halves. */
  datatype HiLo = HiLo(hi: int, lo: int)

  /** ASIOBufferInfo (include/asio-wrapper.hpp:262-269); a buffer address of 0 is a null pointer. */
  datatype BufferInfo = BufferInfo(isInput: int, channelNum: int, buffer0: nat, buffer1: nat)

  /** The state that loadDriver can change. */
  datatype Snapshot = Snapshot(drivers: seq<AsioDriver>, slots: seq<Option<Handle>>, curIndex: int,
                               activated: multiset<Handle>, released: multiset<Handle>)

  /** The driver that curIndex designates, the one removeCurrentDriver would release. */
  function LiveOf(s: Snapshot): multiset<Handle> {
    if 0 <= s.curIndex < |s.drivers| && s.drivers[s.curIndex].device.Some?
    then multiset{s.drivers[s.curIndex].device.value}
    else multiset{}
  }

  /** The driver list after a lazy rescan: the registry is read again only when the list is empty. */
  function Rescanned(ds: seq<AsioDriver>, store: Store): seq<AsioDriver> {
    if |ds| == 0 then ScanOf(store) else ds
  }

  /** The C string a char buffer holds: its characters before the first NUL. */
  function CStringIn(buf: seq<char>): CString {
    if buf == [] || buf[0] == '\0' then [] else [buf[0]] + CStringIn(buf[1..])
  }

  /**
    The `size_t` a C `int` converts to in a comparison with a string length:
    two's complement modulo 2^64, so a negative size becomes huge.
  */
  function SizeT(n: int): nat {
    n % 0x1_0000_0000_0000_0000
  }

  /**
    For a C `int` size and a name no longer than `std::string` allows, the
    converted comparison `length < size` holds exactly when the size is
    negative or above the length.
  */
  lemma SizeTCompare(length: nat, size: int)
    requires -0x8000_0000 <= size < 0x8000_0000
    requires length < 0x8000_0000_0000_0000
    ensures length < SizeT(size) <==> size < 0 || length < size
  {
    if size < 0 {
      assert SizeT(size) == size + 0x1_0000_0000_0000_0000;
    }
  }

  /** A buffer of which the first |name| + 1 cells were overwritten with name and its NUL. */
  function CopiedName(buf: seq<char>, name: CString): seq<char>
    requires |name| < |buf|
  {
    name + ['\0'] + buf[|name| + 1..]
  }

  /** A buffer into which a C string was copied holds exactly that C string. */
  lemma {:induction false} CStringOfCopy(name: CString, rest: seq<char>)
    ensures CStringIn(name + ['\0'] + rest) == name
  {
    if name != [] {
      assert (name + ['\0'] + rest)[1..] == name[1..] + ['\0'] + rest;
      CStringOfCopy(name[1..], rest);
    }
  }

  /** Does loadDriver's search stop at entry k: its name matches and its open does not report an unparsable CLSID? */
  predicate StopsAt(ds: seq<AsioDriver>, numdrv: int, name: CString, clsidFromString: CString -> ClsidConversion, k: nat)
    requires k < |ds|
  {
    ds[k].name == name && !(k < numdrv && !Succeeded(clsidFromString(ds[k].clsid).status))
  }

  /** The first entry from i on at which loadDriver's search stops, if any. */
  function SearchStop(ds: seq<AsioDriver>, numdrv: int, name: CString,
                      clsidFromString: CString -> ClsidConversion, i: nat): (r: Option<nat>)
    decreases |ds| - i
    ensures r.Some? ==> i <= r.value < |ds| && StopsAt(ds, numdrv, name, clsidFromString, r.value)
    ensures r.Some? ==> forall k :: i <= k < r.value ==> !StopsAt(ds, numdrv, name, clsidFromString, k)
    ensures r.None? ==> forall k :: i <= k < |ds| ==> !StopsAt(ds, numdrv, name, clsidFromString, k)
  {
    if i >= |ds| then None
    else if StopsAt(ds, numdrv, name, clsidFromString, i) then Some(i)
    else SearchStop(ds, numdrv, name, clsidFromString, i + 1)
  }

  /** Some entry among the first n has the given name. */
  predicate MatchedBefore(ds: seq<AsioDriver>, name: CString, n: nat) {
    exists k :: 0 <= k < n && k < |ds| && ds[k].name == name
  }

  /** removeCurrentDriver on a state: the current driver, if any, released once, and none current. */
  function Released(s: Snapshot): (r: Snapshot)
    ensures LiveOf(r) == multiset{}
  {
    s.(curIndex := -1, released := s.released + LiveOf(s))
  }

  /**
    The switch of loadDriver on entry j once its CLSID converted
    (include/asio-wrapper.cpp:711-724): a refused activation leaves slot j
    null; a successful one stores the new pointer in entry j and slot j and
    makes j current.
  */
  function AfterOpen(s: Snapshot, j: nat, act: Activation): Snapshot
    requires j < |s.drivers| && j < |s.slots|
  {
    match act
    case Refused => s.(slots := s.slots[j := None])
    case Activated(h) =>
      s.(drivers := s.drivers[j := s.drivers[j].(device := Some(h))], curIndex := j,
         slots := s.slots[j := Some(h)], activated := s.activated + multiset{h})
  }

  /**
    The outcome of loadDriver (include/asio-wrapper.cpp:697-729) on the
    rescanned driver list ds, from state `before` to state `after`:
    - no entry of that name: false, and nothing changes beyond the rescan;
    - otherwise the current driver is released once, and the search stops at
      the first entry of that name whose CLSID converts or whose index is not
      below numdrv;
    - no such entry, or an index not below numdrv: false;
    - otherwise true, with the switch's effect on that entry (AfterOpen), also
      when the activation was refused and no driver is loaded.
  */
  ghost predicate LoadOutcome(before: Snapshot, after: Snapshot, ds: seq<AsioDriver>, numdrv: int,
                              name: CString, clsidFromString: CString -> ClsidConversion,
                              act: Activation, ok: bool)
    requires numdrv <= |ds| && numdrv <= |before.slots|
  {
    var stop := SearchStop(ds, numdrv, name, clsidFromString, 0);
    var rescanned := before.(drivers := ds);
    if !MatchedBefore(ds, name, |ds|) then
      !ok && after == rescanned
    else if stop.None? || stop.value >= numdrv then
      !ok && after == Released(rescanned)
    else
      ok && after == AfterOpen(Released(rescanned), stop.value, act)
  }

  /** A search that ran through the whole list without stopping ends in loadDriver's last `return false`. */
  lemma SearchExhausted(before: Snapshot, after: Snapshot, ds: seq<AsioDriver>, numdrv: int, name: CString,
                        clsidFromString: CString -> ClsidConversion, act: Activation)
    requires numdrv <= |ds| && numdrv <= |before.slots|
    requires SearchStop(ds, numdrv, name, clsidFromString, 0) == None
    requires after == if MatchedBefore(ds, name, |ds|) then Released(before.(drivers := ds)) else before.(drivers := ds)
    ensures LoadOutcome(before, after, ds, numdrv, name, clsidFromString, act, false)
  {
  }

  /**
    Every Release so far, and the one still owed for the current driver, is
    matched by its own successful activation: at most one Release per open.
  */
  ghost predicate BalancedOf(s: Snapshot) {
    s.released + LiveOf(s) <= s.activated
  }

  /**
    loadDriver keeps the balance: its removeCurrentDriver pays the release owed
    for the old current driver, and a new current driver comes with its own
    activation.
  */
  lemma LoadKeepsBalance(before: Snapshot, after: Snapshot, ds: seq<AsioDriver>, numdrv: int, name: CString,
                         clsidFromString: CString -> ClsidConversion, act: Activation, ok: bool)
    requires numdrv <= |ds| && numdrv <= |before.slots|
    requires LiveOf(before.(drivers := ds)) == LiveOf(before)
    requires BalancedOf(before)
    requires LoadOutcome(before, after, ds, numdrv, name, clsidFromString, act, ok)
    ensures BalancedOf(after)
  {
    var rescanned := before.(drivers := ds);
    var stop := SearchStop(ds, numdrv, name, clsidFromString, 0);
    if MatchedBefore(ds, name, |ds|) && stop.Some? && stop.value < numdrv && act.Activated? {
      var r := Released(rescanned);
      var h := act.handle;
      assert r.released == before.released + LiveOf(before);
      assert after == AfterOpen(r, stop.value, act);
      assert LiveOf(after) == multiset{h};
      assert after.released + multiset{h} <= before.activated + multiset{h};
    }
  }

  /**
    What loadDriver's result tells its caller: true means the search stopped
    at an entry of that name below numdrv whose CLSID converted; that entry is
    then current and in its slot if the activation succeeded, and otherwise no
    driver is loaded at all. False means no activation and no slot changed.
  */
  lemma LoadResult(before: Snapshot, after: Snapshot, ds: seq<AsioDriver>, numdrv: int, name: CString,
                   clsidFromString: CString -> ClsidConversion, act: Activation, ok: bool)
    requires numdrv <= |ds| && numdrv <= |before.slots|
    requires LoadOutcome(before, after, ds, numdrv, name, clsidFromString, act, ok)
    ensures ok ==> var stop := SearchStop(ds, numdrv, name, clsidFromString, 0);
      && stop.Some? && stop.value < numdrv && ds[stop.value].name == name
      && Succeeded(clsidFromString(ds[stop.value].clsid).status)
    ensures ok && act.Activated? ==>
      && 0 <= after.curIndex < numdrv && after.drivers[after.curIndex].name == name
      && after.drivers[after.curIndex].device == Some(act.handle)
      && after.slots[after.curIndex] == Some(act.handle)
    ensures ok && act.Refused? ==> after.curIndex == -1 && LiveOf(after) == multiset{}
    ensures !ok ==> after.slots == before.slots && after.activated == before.activated
    ensures !MatchedBefore(ds, name, |ds|) ==> !ok && after.curIndex == before.curIndex && after.released == before.released
  {
    var stop := SearchStop(ds, numdrv, name, clsidFromString, 0);
    if ok && act.Activated? {
      var j := stop.value;
      assert after == AfterOpen(Released(before.(drivers := ds)), j, act);
      assert after.drivers[j] == ds[j].(device := Some(act.handle));
    }
  }

  /**
    An ASIO* entry point on the slot's content: with no driver it reports
    ASE_NotPresent and calls nothing; with a driver it makes exactly the call op
    and returns the driver's answer.
  */
  ghost predicate Forwarded(before: seq<DriverCall>, after: seq<DriverCall>, slot: Option<Handle>,
                            op: DriverOp, driverResult: int, res: int)
  {
    match slot
    case None => res == AseNotPresent && after == before
    case Some(h) => res == driverResult && after == before + [DriverCall(h, op)]
  }

  class Host {
    /** theDrivers (include/asio-wrapper.cpp:428). */
    var theDrivers: seq<AsioDriver>
    /** DriverVect (include/asio-wrapper.cpp:132): None is a null pointer. */
    const driverVect: array<Option<Handle>>
    /** asioDrivers != NULL (include/asio-wrapper.cpp:133). */
    var created: bool
    /** AsioDriverList::numdrv. */
    var numdrv: int
    /** AsioDrivers::curIndex; -1 is "no current driver". */
    var curIndex: int
    /** CoInitialize has been called and not yet undone. */
    ghost var comInitialized: bool
    /** Per interface pointer, how many successful activations returned it. */
    ghost var activated: multiset<Handle>
    /** Per interface pointer, how many times Release was called on it. */
    ghost var released: multiset<Handle>
    /** Every IASIO method called so far, in order. */
    ghost var calls: seq<DriverCall>

    ghost predicate Valid()
      reads this, driverVect
    {
      && driverVect.Length == Capacity
      && 0 <= numdrv <= |theDrivers|
      && numdrv <= Capacity
      && (curIndex == -1 || (0 <= curIndex < numdrv && theDrivers[curIndex].device.Some?))
      && comInitialized == (created && numdrv > 0)
      && (!created ==> theDrivers == [] && curIndex == -1 && forall k :: 0 <= k < Capacity ==> driverVect[k].None?)
    }

    ghost function State(): Snapshot
      reads this, driverVect
    {
      Snapshot(theDrivers, driverVect[..], curIndex, activated, released)
    }

    ghost function Live(): multiset<Handle>
      reads this, driverVect
    {
      LiveOf(State())
    }

    /**
      BalancedOf the current state. It is not part of Valid: a direct
      asioCloseDriver of the current driver breaks it, as the current
      driver is then released again by the next removeCurrentDriver.
    */
    ghost predicate Balanced()
      reads this, driverVect
    {
      BalancedOf(State())
    }

    /** The process at start: no drivers listed, every slot null, no AsioDrivers object. */
    constructor ()
      ensures Valid() && Balanced() && !created
      ensures fresh(driverVect) && activated == multiset{} && released == multiset{} && calls == []
    {
      theDrivers := [];
      driverVect := new Option<Handle>[Capacity](_ => None);
      created := false;
      numdrv := 0;
      curIndex := -1;
      comInitialized := false;
      activated := multiset{};
      released := multiset{};
      calls := [];
    }

    /**
      `new AsioDrivers()`: the AsioDriverList constructor
      (include/asio-wrapper.cpp:500-510) followed by curIndex = -1
      (include/asio-wrapper.cpp:663-666). COM is initialised exactly when
      drivers were found.
    */
    method CreateDriverList(store: Store)
      requires Valid() && !created
      requires |ScanOf(store)| <= Capacity
      modifies this
      ensures Valid() && Balanced() == old(Balanced()) && created
      ensures theDrivers == ScanOf(store) && numdrv == |theDrivers| && curIndex == -1
      ensures comInitialized == (numdrv > 0)
      ensures activated == old(activated) && released == old(released) && calls == old(calls)
    {
      numdrv := 0;
      if |theDrivers| == 0 {
        theDrivers := InstalledAsioDrivers(store);
      }
      numdrv := |theDrivers|;
      if numdrv > 0 {
        comInitialized := true;
      }
      created := true;
      curIndex := -1;
    }

    /**
      asioOpenDriver (include/asio-wrapper.cpp:527-565): after the lazy
      rescan, an index outside [0, numdrv) changes nothing; an unconvertible
      CLSID stores nothing; a successful activation stores the new pointer in
      the entry and in its slot; any other activation result is reported as
      "already open".
    */
    method AsioOpenDriver(drvID: int, store: Store, clsidFromString: CString -> ClsidConversion,
                          act: Activation) returns (res: int)
      requires Valid() && created
      modifies this, driverVect
      ensures Valid() && created && numdrv == old(numdrv) && curIndex == old(curIndex)
      ensures released == old(released) && calls == old(calls)
      ensures old(Balanced()) ==> Balanced()
      ensures numdrv <= |Rescanned(old(theDrivers), store)|
      ensures var ds := Rescanned(old(theDrivers), store);
        if !(0 <= drvID < numdrv) then
          res == DrvErrDeviceNotFound && theDrivers == ds && driverVect[..] == old(driverVect[..])
          && activated == old(activated)
        else if !Succeeded(clsidFromString(ds[drvID].clsid).status) then
          res == DrvErrInvalidParam && theDrivers == ds && driverVect[..] == old(driverVect[..])
          && activated == old(activated)
        else
          match act
          case Refused =>
            res == DrvErrDeviceAlreadyOpen && theDrivers == ds && driverVect[..] == old(driverVect[..])
            && activated == old(activated)
          case Activated(h) =>
            res == 0 && theDrivers == ds[drvID := ds[drvID].(device := Some(h))]
            && driverVect[..] == old(driverVect[..])[drvID := Some(h)]
            && activated == old(activated) + multiset{h}
    {
      if |theDrivers| == 0 {
        theDrivers := InstalledAsioDrivers(store);
      }
      if 0 <= drvID < numdrv {
        var conversion := clsidFromString(theDrivers[drvID].clsid);
        if !Succeeded(conversion.status) {
          return DrvErrInvalidParam;
        }
        match act
        case Activated(h) =>
          theDrivers := theDrivers[drvID := theDrivers[drvID].(device := Some(h))];
          activated := activated + multiset{h};
          driverVect[drvID] := Some(h);
          return 0;
        case Refused =>
          return DrvErrDeviceAlreadyOpen;
      } else {
        return DrvErrDeviceNotFound;
      }
    }

    /**
      asioCloseDriver (include/asio-wrapper.cpp:568-584): releases the pointer
      stored in the entry once. It neither clears the entry nor its slot, and it
      dereferences the pointer unchecked, hence the second requires.
    */
    method AsioCloseDriver(drvID: int) returns (res: int)
      requires Valid() && created
      requires 0 <= drvID < numdrv ==> theDrivers[drvID].device.Some?
      modifies this`released
      ensures Valid()
      ensures 0 <= drvID < numdrv ==>
        res == 0 && released == old(released) + multiset{theDrivers[drvID].device.value}
      ensures !(0 <= drvID < numdrv) ==> res == DrvErrDeviceNotFound && released == old(released)
    {
      if 0 <= drvID < numdrv {
        var driver := theDrivers[drvID];
        released := released + multiset{driver.device.value};
      } else {
        return DrvErrDeviceNotFound;
      }
      return 0;
    }

    /**
      removeCurrentDriver (include/asio-wrapper.cpp:731-737): releases the
      current driver, if any, and leaves none current, so that calling it again
      releases nothing.
    */
    method RemoveCurrentDriver()
      requires Valid() && created
      modifies this`curIndex, this`released
      ensures Valid() && curIndex == -1
      ensures released == old(released) + old(Live())
      ensures old(Balanced()) ==> Balanced()
    {
      if curIndex != -1 {
        var closed := AsioCloseDriver(curIndex);
      }
      curIndex := -1;
    }

    /**
      asioGetDriverName (include/asio-wrapper.cpp:586-616): ASE_OK exactly when
      the index is in range, the buffer is not null and the name is shorter than
      the stated size converted to size_t, so that any negative size passes;
      then the buffer starts with the name and its NUL and is otherwise
      unchanged. On failure the buffer is untouched. Only the |name| + 1 cells
      the copy writes need to exist.
    */
    method AsioGetDriverName(drvID: int, drvname: array?<char>, drvnamesize: int, store: Store)
      returns (res: int)
      requires Valid() && created
      requires drvname != null && 0 <= drvID < numdrv && |theDrivers[drvID].name| < SizeT(drvnamesize) ==>
        |theDrivers[drvID].name| < drvname.Length
      modifies this`theDrivers, drvname
      ensures Valid() && theDrivers == Rescanned(old(theDrivers), store)
      ensures old(Balanced()) ==> Balanced()
      ensures res == AseOk <==>
        0 <= drvID < numdrv && drvname != null && |theDrivers[drvID].name| < SizeT(drvnamesize)
      ensures !(0 <= drvID < numdrv) ==> res == DrvErrDeviceNotFound
      ensures 0 <= drvID < numdrv && drvname == null ==> res == DrvErrInvalidParam
      ensures 0 <= drvID < numdrv && drvname != null && |theDrivers[drvID].name| >= SizeT(drvnamesize) ==>
        res == DrvErrDeviceNotFound
      ensures drvname != null ==>
        drvname[..] == if res == AseOk then CopiedName(old(drvname[..]), theDrivers[drvID].name)
                       else old(drvname[..])
    {
      if |theDrivers| == 0 {
        theDrivers := InstalledAsioDrivers(store);
      }
      if !(0 <= drvID < numdrv) {
        return DrvErrDeviceNotFound;
      }
      var driver := theDrivers[drvID];
      if drvname == null {
        return DrvErrInvalidParam;
      }
      var str := driver.name;
      // str.length() < drvnamesize compares as size_t: a negative size passes.
      if |str| < SizeT(drvnamesize) {
        forall k | 0 <= k < |str| {
          drvname[k] := str[k];
        }
        drvname[|str|] := '\0';
        assert drvname[..] == CopiedName(old(drvname[..]), str);
        return AseOk;
      } else {
        return DrvErrDeviceNotFound;
      }
    }

    /** asioGetDriverPath (include/asio-wrapper.cpp:618-623): not implemented; always DRVERR_INVALID_PARAM. */
    method AsioGetDriverPath(drvID: int, dllpath: array?<char>, dllpathsize: int) returns (res: int)
      ensures res == DrvErrInvalidParam
    {
      return DrvErrInvalidParam;
    }

    /**
      asioGetDriverCLSID (include/asio-wrapper.cpp:625-648): out of range it
      reports DRVERR_DEVICE_NOT_FOUND and leaves *clsid; in range it converts the
      entry's CLSID string into *clsid and returns the conversion's failure
      status, or DRVERR_DEVICE_NOT_FOUND when the conversion succeeded.
    */
    method AsioGetDriverClsid(drvID: int, clsid: GuidCodec.Guid, store: Store,
                              clsidFromString: CString -> ClsidConversion)
      returns (res: int, clsidOut: GuidCodec.Guid)
      requires Valid() && created
      modifies this`theDrivers
      ensures Valid() && theDrivers == Rescanned(old(theDrivers), store)
      ensures old(Balanced()) ==> Balanced()
      ensures !(0 <= drvID < numdrv) ==> res == DrvErrDeviceNotFound && clsidOut == clsid
      ensures 0 <= drvID < numdrv ==>
        var conversion := clsidFromString(theDrivers[drvID].clsid);
        clsidOut == conversion.clsid
        && res == if Succeeded(conversion.status) then DrvErrDeviceNotFound else conversion.status
    {
      if |theDrivers| == 0 {
        theDrivers := InstalledAsioDrivers(store);
      }
      clsidOut := clsid;
      if 0 <= drvID < numdrv {
        var driver := theDrivers[drvID];
        var conversion := clsidFromString(driver.clsid);
        clsidOut := conversion.clsid;
        if !Succeeded(conversion.status) {
          return conversion.status, clsidOut;
        }
      } else {
        return DrvErrDeviceNotFound, clsidOut;
      }
      return DrvErrDeviceNotFound, clsidOut;
    }

    /**
      getCurrentDriverName (include/asio-wrapper.cpp:672-679): for an index in
      range, asioGetDriverName into a 32-character buffer; otherwise an empty C
      string and false.
    */
    method GetCurrentDriverName(index: int, name: array<char>, store: Store) returns (ok: bool)
      requires Valid() && created
      requires name.Length >= NameBufferSize
      modifies this`theDrivers, name
      ensures Valid() && theDrivers == old(theDrivers)
      ensures old(Balanced()) ==> Balanced()
      ensures ok <==> 0 <= index < numdrv && |theDrivers[index].name| < NameBufferSize
      ensures ok ==> name[..] == CopiedName(old(name[..]), theDrivers[index].name)
      ensures !ok && 0 <= index < numdrv ==> name[..] == old(name[..])
      ensures !(0 <= index < numdrv) ==> name[..] == old(name[..])[0 := '\0']
    {
      if 0 <= index < numdrv {
        var res := AsioGetDriverName(index, name, NameBufferSize, store);
        return res == 0;
      }
      name[0] := '\0';
      return false;
    }

    /**
      getDriverNames (include/asio-wrapper.cpp:681-694): the names of the first
      min(numdrv, maxDrivers) drivers into the given buffers, each that fits in
      32 characters; the count is numdrv when it is below maxDrivers, else 0.
    */
    method GetDriverNames(names: array<array?<char>>, maxDrivers: int, store: Store) returns (count: int)
      requires Valid() && created
      requires (if numdrv < maxDrivers then numdrv else maxDrivers) <= names.Length
      requires forall k :: 0 <= k < names.Length && names[k] != null ==> names[k].Length >= NameBufferSize
      requires forall j, k :: 0 <= j < k < names.Length && names[j] != null ==> names[j] != names[k]
      modifies this`theDrivers, set k | 0 <= k < names.Length :: names[k]
      ensures Valid() && theDrivers == old(theDrivers)
      ensures old(Balanced()) ==> Balanced()
      ensures count == if numdrv < maxDrivers then numdrv else 0
      ensures forall k :: 0 <= k < names.Length && names[k] != null ==>
        names[k][..] == if k < numdrv && k < maxDrivers && |theDrivers[k].name| < NameBufferSize
                        then CopiedName(old(names[k][..]), theDrivers[k].name)
                        else old(names[k][..])
    {
      var i := 0;
      while i < numdrv && i < maxDrivers
        invariant 0 <= i <= numdrv
        invariant i == 0 || i <= maxDrivers
        invariant i <= names.Length
        invariant Valid() && theDrivers == old(theDrivers)
        invariant old(Balanced()) ==> Balanced()
        invariant forall k :: 0 <= k < names.Length && names[k] != null ==>
          names[k][..] == if k < i && |theDrivers[k].name| < NameBufferSize
                          then CopiedName(old(names[k][..]), theDrivers[k].name)
                          else old(names[k][..])
      {
        var res := AsioGetDriverName(i, names[i], NameBufferSize, store);
        i := i + 1;
      }
      if numdrv < maxDrivers {
        return numdrv;
      } else {
        return 0;
      }
    }

    /**
      The first lines of loadDriver's matching branch
      (include/asio-wrapper.cpp:707-708): an empty 32-character buffer, then
      getCurrentDriverName of entry i. The buffer ends up empty or holding that
      entry's own name.
    */
    method RememberName(i: int, store: Store) returns (currentDriverName: array<char>)
      requires Valid() && created && 0 <= i < |theDrivers|
      modifies this`theDrivers
      ensures theDrivers == old(theDrivers)
      ensures fresh(currentDriverName) && currentDriverName.Length == NameBufferSize
      ensures currentDriverName[0] == '\0' || CStringIn(currentDriverName[..]) == theDrivers[i].name
    {
      currentDriverName := new char[NameBufferSize];
      currentDriverName[0] := '\0';
      var found := GetCurrentDriverName(i, currentDriverName, store);
      if found {
        CStringOfCopy(theDrivers[i].name, currentDriverName[|theDrivers[i].name| + 1..]);
      }
    }

    /**
      One matching entry of loadDriver's loop (include/asio-wrapper.cpp:706-725):
      remember the current name, release the current driver, open entry i, and
      act on the result as the switch does. The result says which case applies:
      DRVERR_DEVICE_NOT_FOUND exactly for an index not below numdrv,
      DRVERR_INVALID_PARAM exactly for an unconvertible CLSID, otherwise 0 or
      DRVERR_DEVICE_ALREADY_OPEN as the activation succeeds or not. The rollback
      call of include/asio-wrapper.cpp:722 is unreachable.
    */
    method LoadEntry(i: int, store: Store, clsidFromString: CString -> ClsidConversion,
                     act: Activation) returns (ret: int)
      requires Valid() && created && 0 <= i < |theDrivers|
      modifies this, driverVect
      ensures Valid() && created && numdrv == old(numdrv) && calls == old(calls)
      ensures comInitialized == old(comInitialized)
      ensures old(Balanced()) ==> Balanced()
      ensures ret == DrvErrDeviceNotFound <==> i >= numdrv
      ensures ret == DrvErrInvalidParam <==>
        i < numdrv && !Succeeded(clsidFromString(old(theDrivers)[i].clsid).status)
      ensures ret == DrvErrDeviceAlreadyOpen <==>
        i < numdrv && Succeeded(clsidFromString(old(theDrivers)[i].clsid).status) && act.Refused?
      ensures ret == 0 <==>
        i < numdrv && Succeeded(clsidFromString(old(theDrivers)[i].clsid).status) && act.Activated?
      ensures State() == if ret == DrvErrDeviceNotFound || ret == DrvErrInvalidParam then Released(old(State()))
                         else AfterOpen(Released(old(State())), i, act)
    {
      var currentDriverName := RememberName(i, store);
      RemoveCurrentDriver();
      ret := OpenEntry(i, currentDriverName, store, clsidFromString, act);
    }

    /**
      The open and the switch of loadDriver's matching branch
      (include/asio-wrapper.cpp:711-725), with no driver current: on success
      entry i becomes current; a refused activation empties its slot; the
      other results change nothing. As the remembered name is entry i's own (or
      empty) the rollback guard never holds.
    */
    method OpenEntry(i: int, currentDriverName: array<char>, store: Store,
                     clsidFromString: CString -> ClsidConversion, act: Activation) returns (ret: int)
      requires Valid() && created && 0 <= i < |theDrivers| && curIndex == -1
      requires currentDriverName.Length == NameBufferSize
      requires currentDriverName[0] == '\0' || CStringIn(currentDriverName[..]) == theDrivers[i].name
      modifies this, driverVect
      ensures Valid() && created && numdrv == old(numdrv) && calls == old(calls)
      ensures comInitialized == old(comInitialized)
      ensures old(Balanced()) ==> Balanced()
      ensures ret == DrvErrDeviceNotFound <==> i >= numdrv
      ensures ret == DrvErrInvalidParam <==>
        i < numdrv && !Succeeded(clsidFromString(old(theDrivers)[i].clsid).status)
      ensures ret == DrvErrDeviceAlreadyOpen <==>
        i < numdrv && Succeeded(clsidFromString(old(theDrivers)[i].clsid).status) && act.Refused?
      ensures ret == 0 <==>
        i < numdrv && Succeeded(clsidFromString(old(theDrivers)[i].clsid).status) && act.Activated?
      ensures State() == if ret == DrvErrDeviceNotFound || ret == DrvErrInvalidParam then old(State())
                         else AfterOpen(old(State()), i, act)
    {
      ret := AsioOpenDriver(i, store, clsidFromString, act);
      if ret == 0 {
        curIndex := i;
      } else if ret == DrvErrDeviceAlreadyOpen {
        driverVect[i] := None;
        if currentDriverName[0] != '\0' && theDrivers[i].name != CStringIn(currentDriverName[..]) {
          // the remembered name is the target's own: no rollback happens
          assert false;
        }
      }
    }

    /**
      The state of loadDriver's search, started in state `before`, just before
      entry i of the rescanned list ds: the entries before i did not stop it,
      and the current driver has been released if and only if one of them
      matched.
    */
    ghost predicate Searching(before: Snapshot, ds: seq<AsioDriver>, name: CString,
                              clsidFromString: CString -> ClsidConversion, i: int)
      reads this, driverVect
    {
      && Valid() && created
      && 0 <= i <= |ds| && numdrv <= |ds| && |before.slots| == Capacity
      && SearchStop(ds, numdrv, name, clsidFromString, i) == SearchStop(ds, numdrv, name, clsidFromString, 0)
      && State() == if MatchedBefore(ds, name, i) then Released(before.(drivers := ds)) else before.(drivers := ds)
    }

    /**
      One iteration of loadDriver's loop (include/asio-wrapper.cpp:705-726):
      a name that differs moves on; a matching entry is tried, and every result
      but DRVERR_INVALID_PARAM ends the search with loadDriver's outcome.
    */
    method SearchEntry(i: int, name: CString, store: Store, clsidFromString: CString -> ClsidConversion,
                       act: Activation, ghost before: Snapshot, ghost ds: seq<AsioDriver>)
      returns (done: bool, ok: bool)
      requires Searching(before, ds, name, clsidFromString, i) && i < |ds|
      modifies this, driverVect
      ensures numdrv == old(numdrv) && calls == old(calls) && comInitialized == old(comInitialized)
      ensures old(Balanced()) ==> Balanced()
      ensures !done ==> Searching(before, ds, name, clsidFromString, i + 1)
      ensures done ==> Valid() && created
      ensures done ==> LoadOutcome(before, State(), ds, numdrv, name, clsidFromString, act, ok)
    {
      done, ok := false, false;
      if name == theDrivers[i].name {
        assert Released(State()) == Released(before.(drivers := ds));
        var ret := LoadEntry(i, store, clsidFromString, act);
        assert MatchedBefore(ds, name, i + 1);
        if ret != DrvErrInvalidParam {
          // the switch's cases 0 and DRVERR_DEVICE_ALREADY_OPEN return true,
          // DRVERR_DEVICE_NOT_FOUND returns false
          assert StopsAt(ds, numdrv, name, clsidFromString, i);
          assert SearchStop(ds, numdrv, name, clsidFromString, 0) == Some(i);
          assert MatchedBefore(ds, name, |ds|);
          done, ok := true, ret != DrvErrDeviceNotFound;
        }
        // DRVERR_INVALID_PARAM: no case of the switch; the search continues
      } else {
        assert MatchedBefore(ds, name, i + 1) == MatchedBefore(ds, name, i);
      }
    }

    /** loadDriver (include/asio-wrapper.cpp:697-729), as LoadOutcome states it. */
    method LoadDriver(name: CString, store: Store, clsidFromString: CString -> ClsidConversion,
                      act: Activation) returns (ok: bool)
      requires Valid() && created
      modifies this, driverVect
      ensures Valid() && created && numdrv == old(numdrv) && calls == old(calls)
      ensures comInitialized == old(comInitialized)
      ensures old(Balanced()) ==> Balanced()
      ensures numdrv <= |Rescanned(old(theDrivers), store)|
      ensures LoadOutcome(old(State()), State(), Rescanned(old(theDrivers), store), numdrv,
                          name, clsidFromString, act, ok)
    {
      if |theDrivers| == 0 {
        theDrivers := InstalledAsioDrivers(store);
      }
      ghost var ds := theDrivers;
      ghost var before := old(State());
      assert State() == before.(drivers := ds);
      var i := 0;
      while i < |theDrivers|
        invariant Searching(before, ds, name, clsidFromString, i)
        invariant numdrv == old(numdrv) && calls == old(calls) && comInitialized == old(comInitialized)
        invariant old(Balanced()) ==> Balanced()
      {
        var done;
        done, ok := SearchEntry(i, name, store, clsidFromString, act, before, ds);
        if done {
          return;
        }
        i := i + 1;
      }
      SearchExhausted(before, State(), ds, numdrv, name, clsidFromString, act);
      return false;
    }

    /**
      loadAsioDriver (include/asio-wrapper.cpp:652-659): creates the
      AsioDrivers object on first use, then loadDriver. On first use the driver
      list is the registry scan, so at most Capacity drivers may be installed.
    */
    method LoadAsioDriver(name: CString, store: Store, clsidFromString: CString -> ClsidConversion,
                          act: Activation) returns (ok: bool)
      requires Valid()
      requires !created ==> |ScanOf(store)| <= Capacity
      modifies this, driverVect
      ensures Valid() && created && calls == old(calls)
      ensures old(Balanced()) ==> Balanced()
      ensures !old(created) ==> numdrv == |ScanOf(store)| && comInitialized == (numdrv > 0)
      ensures old(created) ==> numdrv == old(numdrv) && comInitialized == old(comInitialized)
      ensures numdrv <= |Rescanned(old(theDrivers), store)|
      ensures LoadOutcome(old(State()), State(), Rescanned(old(theDrivers), store), numdrv,
                          name, clsidFromString, act, ok)
    {
      if !created {
        CreateDriverList(store);
      }
      ok := LoadDriver(name, store, clsidFromString, act);
    }

    /**
      ASIOInit (include/asio-wrapper.cpp:175-193): resets the version and the
      name to " Unset "; with no driver, ASE_NotPresent; if the driver's init
      fails, the slot is emptied (and nothing else) and ASE_NotPresent; otherwise
      the driver's name and version and a fixed message, and ASE_OK.
    */
    method AsioInit(index: int, info: DriverInfo, initOk: bool, driverName: CString, driverVersion: int)
      returns (res: int, infoOut: DriverInfo)
      requires Valid() && 0 <= index < Capacity
      modifies this`calls, driverVect
      ensures Valid() && (old(Balanced()) ==> Balanced())
      ensures var unset := info.(driverVersion := 0, name := UnsetName);
        match old(driverVect[index])
        case None =>
          res == AseNotPresent && infoOut == unset && calls == old(calls)
          && driverVect[..] == old(driverVect[..])
        case Some(h) =>
          if !initOk then
            res == AseNotPresent && infoOut == unset && calls == old(calls) + [DriverCall(h, Init(info.sysRef))]
            && driverVect[..] == old(driverVect[..])[index := None]
          else
            res == AseOk && driverVect[..] == old(driverVect[..])
            && infoOut == info.(driverVersion := driverVersion, name := driverName,
                                errorMessage := NoErrorMessage)
            && calls == old(calls) + [DriverCall(h, Init(info.sysRef)), DriverCall(h, GetDriverName),
                                      DriverCall(h, GetDriverVersion)]
    {
      infoOut := info.(driverVersion := 0, name := UnsetName);
      var slot := driverVect[index];
      if slot.Some? {
        calls := calls + [DriverCall(slot.value, Init(info.sysRef))];
        if !initOk {
          driverVect[index] := None;
          return AseNotPresent, infoOut;
        }
      }
      if slot.Some? {
        calls := calls + [DriverCall(slot.value, GetDriverName)];
        infoOut := infoOut.(name := driverName);
        calls := calls + [DriverCall(slot.value, GetDriverVersion)];
        infoOut := infoOut.(driverVersion := driverVersion);
        infoOut := infoOut.(errorMessage := NoErrorMessage);
        return AseOk, infoOut;
      }
      return AseNotPresent, infoOut;
    }

    /**
      ASIOExit (include/asio-wrapper.cpp:157-164): if slot index holds a driver,
      removeCurrentDriver (which closes curIndex's driver); then slot index is
      emptied. Always ASE_OK.
    */
    method AsioExit(index: int) returns (res: int)
      requires Valid() && 0 <= index < Capacity
      modifies this, driverVect
      ensures Valid() && res == AseOk
      ensures old(Balanced()) ==> Balanced()
      ensures driverVect[..] == old(driverVect[..])[index := None]
      ensures old(driverVect[index]).Some? ==> curIndex == -1 && released == old(released) + old(Live())
      ensures old(driverVect[index]).None? ==> curIndex == old(curIndex) && released == old(released)
      ensures theDrivers == old(theDrivers) && created == old(created) && numdrv == old(numdrv)
      ensures activated == old(activated) && calls == old(calls) && comInitialized == old(comInitialized)
    {
      if driverVect[index].Some? {
        RemoveCurrentDriver();
      }
      driverVect[index] := None;
      return AseOk;
    }

    /** The common shape of the entry points: forward op to the slot's driver, or report it absent. */
    method Forward(index: int, op: DriverOp, driverResult: int) returns (res: int)
      requires Valid() && 0 <= index < Capacity
      modifies this`calls
      ensures Valid() && Forwarded(old(calls), calls, driverVect[index], op, driverResult, res)
    {
      match driverVect[index]
      case None =>
        return AseNotPresent;
      case Some(h) =>
        calls := calls + [DriverCall(h, op)];
        return driverResult;
    }

    /** ASIOStart (include/asio-wrapper.cpp:139-146). */
    method AsioStart(index: int, driverResult: int) returns (res: int)
      requires Valid() && 0 <= index < Capacity
      modifies this`calls
      ensures Valid() && Forwarded(old(calls), calls, driverVect[index], Start, driverResult, res)
    {
      res := Forward(index, Start, driverResult);
    }

    /** ASIOStop (include/asio-wrapper.cpp:148-155). */
    method AsioStop(index: int, driverResult: int) returns (res: int)
      requires Valid() && 0 <= index < Capacity
      modifies this`calls
      ensures Valid() && Forwarded(old(calls), calls, driverVect[index], Stop, driverResult, res)
    {
      res := Forward(index, Stop, driverResult);
    }

    /** ASIOOutputReady (include/asio-wrapper.cpp:166-173). */
    method AsioOutputReady(index: int, driverResult: int) returns (res: int)
      requires Valid() && 0 <= index < Capacity
      modifies this`calls
      ensures Valid() && Forwarded(old(calls), calls, driverVect[index], OutputReady, driverResult, res)
    {
      res := Forward(index, OutputReady, driverResult);
    }

    /** ASIOControlPanel (include/asio-wrapper.cpp:197-204). */
    method AsioControlPanel(index: int, driverResult: int) returns (res: int)
      requires Valid() && 0 <= index < Capacity
      modifies this`calls
      ensures Valid() && Forwarded(old(calls), calls, driverVect[index], ControlPanel, driverResult, res)
    {
      res := Forward(index, ControlPanel, driverResult);
    }

    /** ASIOFuture (include/asio-wrapper.cpp:206-213); the option pointer is opaque. */
    method AsioFuture(index: int, selector: int, driverResult: int) returns (res: int)
      requires Valid() && 0 <= index < Capacity
      modifies this`calls
      ensures Valid() && Forwarded(old(calls), calls, driverVect[index], Future(selector), driverResult, res)
    {
      res := Forward(index, Future(selector), driverResult);
    }

    /** ASIOGetSampleRate (include/asio-wrapper.cpp:218-225): with no driver, *rate is not written. */
    method AsioGetSampleRate(index: int, rate: SampleRate, driverResult: int, driverRate: SampleRate)
      returns (res: int, rateOut: SampleRate)
      requires Valid() && 0 <= index < Capacity
      modifies this`calls
      ensures Valid() && Forwarded(old(calls), calls, driverVect[index], GetSampleRate, driverResult, res)
      ensures rateOut == if driverVect[index].None? then rate else driverRate
    {
      res := Forward(index, GetSampleRate, driverResult);
      rateOut := if driverVect[index].None? then rate else driverRate;
    }

    /** ASIOGetBufferSize (include/asio-wrapper.cpp:227-238): with no driver, all four outputs are 0. */
    method AsioGetBufferSize(index: int, driverResult: int, driverSizes: BufferSizes)
      returns (res: int, sizes: BufferSizes)
      requires Valid() && 0 <= index < Capacity
      modifies this`calls
      ensures Valid() && Forwarded(old(calls), calls, driverVect[index], GetBufferSize, driverResult, res)
      ensures sizes == if driverVect[index].None? then BufferSizes(0, 0, 0, 0) else driverSizes
    {
      res := Forward(index, GetBufferSize, driverResult);
      sizes := if driverVect[index].None? then BufferSizes(0, 0, 0, 0) else driverSizes;
    }

    /**
      ASIOGetClockSources (include/asio-wrapper.cpp:240-248): with no driver,
      *sources is 0. The clock array is the driver's to fill.
    */
    method AsioGetClockSources(index: int, driverResult: int, driverSources: int)
      returns (res: int, sources: int)
      requires Valid() && 0 <= index < Capacity
      modifies this`calls
      ensures Valid() && Forwarded(old(calls), calls, driverVect[index], GetClockSources, driverResult, res)
      ensures sources == if driverVect[index].None? then 0 else driverSources
    {
      res := Forward(index, GetClockSources, driverResult);
      sources := if driverVect[index].None? then 0 else driverSources;
    }

    /** ASIOGetChannels (include/asio-wrapper.cpp:251-260): with no driver, both counts are 0. */
    method AsioGetChannels(index: int, driverResult: int, driverIn: int, driverOut: int)
      returns (res: int, inChannels: int, outChannels: int)
      requires Valid() && 0 <= index < Capacity
      modifies this`calls
      ensures Valid() && Forwarded(old(calls), calls, driverVect[index], GetChannels, driverResult, res)
      ensures driverVect[index].None? ==> inChannels == 0 && outChannels == 0
      ensures driverVect[index].Some? ==> inChannels == driverIn && outChannels == driverOut
    {
      res := Forward(index, GetChannels, driverResult);
      if driverVect[index].None? {
        inChannels, outChannels := 0, 0;
      } else {
        inChannels, outChannels := driverIn, driverOut;
      }
    }

    /**
      ASIOGetChannelInfo (include/asio-wrapper.cpp:263-273): with no driver,
      channelGroup -1, name " " and type ASIOSTFloat32LSB, the other fields as
      the caller set them.
    */
    method AsioGetChannelInfo(index: int, info: ChannelInfo, driverResult: int, driverInfo: ChannelInfo)
      returns (res: int, infoOut: ChannelInfo)
      requires Valid() && 0 <= index < Capacity
      modifies this`calls
      ensures Valid() && Forwarded(old(calls), calls, driverVect[index], GetChannelInfo, driverResult, res)
      ensures infoOut == if driverVect[index].None?
                         then info.(channelGroup := -1, name := " ", sampleType := AsioStFloat32Lsb)
                         else driverInfo
    {
      res := Forward(index, GetChannelInfo, driverResult);
      if driverVect[index].None? {
        infoOut := info.(channelGroup := -1);
        infoOut := infoOut.(name := " ");
        infoOut := infoOut.(sampleType := AsioStFloat32Lsb);
      } else {
        infoOut := driverInfo;
      }
    }

    /** ASIOGetLatencies (include/asio-wrapper.cpp:275-284): with no driver, both latencies are 0. */
    method AsioGetLatencies(index: int, driverResult: int, driverIn: int, driverOut: int)
      returns (res: int, inLatency: int, outLatency: int)
      requires Valid() && 0 <= index < Capacity
      modifies this`calls
      ensures Valid() && Forwarded(old(calls), calls, driverVect[index], GetLatencies, driverResult, res)
      ensures driverVect[index].None? ==> inLatency == 0 && outLatency == 0
      ensures driverVect[index].Some? ==> inLatency == driverIn && outLatency == driverOut
    {
      res := Forward(index, GetLatencies, driverResult);
      if driverVect[index].None? {
        inLatency, outLatency := 0, 0;
      } else {
        inLatency, outLatency := driverIn, driverOut;
      }
    }

    /** ASIOGetSamplePosition (include/asio-wrapper.cpp:286-293): with no driver, nothing is written. */
    method AsioGetSamplePosition(index: int, position: HiLo, stamp: HiLo, driverResult: int,
                                 driverPosition: HiLo, driverStamp: HiLo)
      returns (res: int, positionOut: HiLo, stampOut: HiLo)
      requires Valid() && 0 <= index < Capacity
      modifies this`calls
      ensures Valid() && Forwarded(old(calls), calls, driverVect[index], GetSamplePosition, driverResult, res)
      ensures driverVect[index].None? ==> positionOut == position && stampOut == stamp
      ensures driverVect[index].Some? ==> positionOut == driverPosition && stampOut == driverStamp
    {
      res := Forward(index, GetSamplePosition, driverResult);
      if driverVect[index].None? {
        positionOut, stampOut := position, stamp;
      } else {
        positionOut, stampOut := driverPosition, driverStamp;
      }
    }

    /** ASIOCanSampleRate (include/asio-wrapper.cpp:296-303). */
    method AsioCanSampleRate(index: int, rate: SampleRate, driverResult: int) returns (res: int)
      requires Valid() && 0 <= index < Capacity
      modifies this`calls
      ensures Valid() && Forwarded(old(calls), calls, driverVect[index], CanSampleRate(rate), driverResult, res)
    {
      res := Forward(index, CanSampleRate(rate), driverResult);
    }

    /** ASIOSetSampleRate (include/asio-wrapper.cpp:309-316). */
    method AsioSetSampleRate(index: int, rate: SampleRate, driverResult: int) returns (res: int)
      requires Valid() && 0 <= index < Capacity
      modifies this`calls
      ensures Valid() && Forwarded(old(calls), calls, driverVect[index], SetSampleRate(rate), driverResult, res)
    {
      res := Forward(index, SetSampleRate(rate), driverResult);
    }

    /** ASIOSetClockSource (include/asio-wrapper.cpp:318-325). */
    method AsioSetClockSource(index: int, reference: int, driverResult: int) returns (res: int)
      requires Valid() && 0 <= index < Capacity
      modifies this`calls
      ensures Valid() && Forwarded(old(calls), calls, driverVect[index], SetClockSource(reference), driverResult, res)
    {
      res := Forward(index, SetClockSource(reference), driverResult);
    }

    /**
      ASIOCreateBuffers (include/asio-wrapper.cpp:330-348): with no driver,
      both buffer pointers of exactly the first `channels` entries become null
      and nothing else changes. With a driver the entries are the driver's to
      fill, and the model promises nothing about them.
    */
    method AsioCreateBuffers(index: int, bufInfo: array<BufferInfo>, channels: int, bufSize: int,
                             driverResult: int) returns (res: int)
      requires Valid() && 0 <= index < Capacity
      requires channels <= bufInfo.Length
      modifies this`calls, bufInfo
      ensures Valid()
      ensures Forwarded(old(calls), calls, driverVect[index], CreateBuffers(channels, bufSize), driverResult, res)
      ensures driverVect[index].None? ==> forall k :: 0 <= k < bufInfo.Length ==>
        bufInfo[k] == if k < channels then old(bufInfo[k]).(buffer0 := 0, buffer1 := 0) else old(bufInfo[k])
    {
      if driverVect[index].None? {
        var i := 0;
        while i < channels
          invariant 0 <= i && (i == 0 || i <= channels)
          invariant calls == old(calls)
          invariant forall k :: 0 <= k < bufInfo.Length ==>
            bufInfo[k] == if k < i then old(bufInfo[k]).(buffer0 := 0, buffer1 := 0) else old(bufInfo[k])
        {
          bufInfo[i] := bufInfo[i].(buffer0 := 0, buffer1 := 0);
          i := i + 1;
        }
        return AseNotPresent;
      }
      res := Forward(index, CreateBuffers(channels, bufSize), driverResult);
    }

    /** ASIODisposeBuffers (include/asio-wrapper.cpp:350-357). */
    method AsioDisposeBuffers(index: int, driverResult: int) returns (res: int)
      requires Valid() && 0 <= index < Capacity
      modifies this`calls
      ensures Valid() && Forwarded(old(calls), calls, driverVect[index], DisposeBuffers, driverResult, res)
    {
      res := Forward(index, DisposeBuffers, driverResult);
    }
  }
}

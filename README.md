# ASIO host wrapper: driver list, slot table and GUID codec

This project models the host side of `include/asio-wrapper.cpp`, a shim through
which an application finds, loads and calls Windows ASIO audio drivers. It covers
three parts.

- **GUID text codec** (`guid.dfy`, module `GuidCodec`). `GuidToString` prints a
  GUID in the braced 38-character form of section 3 of RFC 4122, in lower-case hex.
  `StringToGuid` reads that form back, or fails with `InvalidGuidFormat` where the
  source throws.
- **Registry scan** (`registry.dfy`, module `Registry`). `InstalledAsioDrivers`
  turns the child keys of `HKLM\SOFTWARE\ASIO` into the driver list `theDrivers`.
  The keys arrive as an abstract `Store`: the records the key enumeration yields,
  or `None` when the root key cannot be opened. The source tests that open with
  `SUCCEEDED`, which never fails on a Win32 status, so its early return never
  runs. The enumeration on the unopened handle then fails at once and gives the
  same empty list, which is how the model treats `None`.
- **Driver list, slot table and activation manager** (`host.dfy`, module `Asio`,
  class `Host`). The class holds the process globals `theDrivers` and
  `DriverVect[8]`. It also holds the fields `numdrv` and `curIndex` of the one
  `AsioDrivers` object, which `loadAsioDriver` creates on first use. Its methods
  are the members of `AsioDriverList` and `AsioDrivers`, `loadAsioDriver`,
  `ASIOInit`, `ASIOExit`, and the indexed `ASIO*` entry points. Those entry points
  forward to the driver in a slot, or report `ASE_NotPresent` and write fixed
  defaults.

Foreign calls are inputs of the methods that make them:
- the registry contents, read at each lazy rescan, are a `Store`;
- `CLSIDFromString` is a function from a CLSID string to an HRESULT and a GUID;
- the one `CoCreateInstance` a call can make is an `Activation`: a new interface
  pointer, or any result other than S_OK;
- what a driver answers to an `IASIO` method is passed in as that method's result
  and outputs.

Some state exists only in the proofs:
- `activated` and `released` count, per interface pointer, the successful
  activations and the calls of `Release`;
- `calls` logs every `IASIO` method called;
- `comInitialized` records that `CoInitialize` is in effect.

The pieces `loadDriver` is built from are separate methods (`LoadEntry`,
`RememberName`, `OpenEntry`, `SearchEntry`) so that each proof stays small. Their
composition is the source's loop and switch.

Behaviour of the source that looks unintended is modelled as written, and a
comment flags each case. `host.dfy`'s module comment lists them; the
"Left out" section below names the ones that became preconditions.

## Model

| member | source | states |
|---|---|---|
| GuidCodec.GuidToString | include/asio-wrapper.cpp:366-376 | the output is always 38 characters: a brace, 8, 4 and 4 hex digits, then 2+2 and 6x2 hex digits, hyphens at 9, 14, 19 and 24, a closing brace; it has no capital letter |
| GuidCodec.EncodeLayout | include/asio-wrapper.cpp:368-373 | the fields appear in the order Data1, Data2, Data3, Data4[0..7], each at its own fixed position as its fixed-width hex |
| GuidCodec.EncodeNoUpper | include/asio-wrapper.cpp:370 | the printed text has no capital letter (`%x` prints lower case) |
| GuidCodec.Hex | include/asio-wrapper.cpp:370 | `%0<w>x` yields exactly w hex digits, none upper case |
| GuidCodec.ParseHex | include/asio-wrapper.cpp:381 | a string of w hex digits denotes a number below 16^w |
| GuidCodec.ParseHexOfHex | include/asio-wrapper.cpp:369-381 | reading back the digits `%0<w>x` printed gives the number |
| GuidCodec.HexOfParseHex | include/asio-wrapper.cpp:369-381 | printing the value of a digit string gives that string in lower case |
| GuidCodec.StringToGuid | include/asio-wrapper.cpp:378-390 | decoding succeeds if and only if the text has the 38-character form named by the error message; otherwise it fails and never returns a partial GUID |
| GuidCodec.EncodeThenDecode | include/asio-wrapper.cpp:366-387 | decoding the encoder's output gives back the same GUID |
| GuidCodec.DecodedGroups | include/asio-wrapper.cpp:366-387 | each digit group of a decoded text, printed again, is that group in lower case |
| GuidCodec.DecodeThenEncode | include/asio-wrapper.cpp:366-387 | a successfully decoded text is the encoder's output for that GUID, up to letter case |
| Registry.InstalledAsioDrivers | include/asio-wrapper.cpp:430-489 | the loop yields exactly the scan `ScanOf` of the store; an unopenable root yields an empty list |
| Registry.ScannedAppend | include/asio-wrapper.cpp:447-483 | the scan handles keys in enumeration order: the scan of a + b is the scan of a followed by the scan of b |
| Registry.SkippedKey | include/asio-wrapper.cpp:456-462 | a key whose CLSID cannot be read contributes nothing, and the scan carries on after it |
| Registry.ScannedLength | include/asio-wrapper.cpp:447-483 | the result is no longer than the key list |
| Registry.ScannedMembers | include/asio-wrapper.cpp:456-482 | a driver is in the result if and only if some key with a readable CLSID yields it: that CLSID, the Description if present or else the key name, and no device yet |
| Asio.SizeTCompare | include/asio-wrapper.cpp:605 | for an `int` size, the `size_t` comparison `length < size` holds exactly when the size is negative or exceeds the length |
| Asio.CStringOfCopy | include/asio-wrapper.cpp:606-607 | a buffer into which a name and its NUL were copied holds exactly that C string, as the `strcmp` at line 721 reads it |
| Asio.SearchStop | include/asio-wrapper.cpp:705-726 | the first entry from i on whose name matches and whose open does not report an unconvertible CLSID, or none when there is no such entry |
| Asio.Released | include/asio-wrapper.cpp:731-737 | after removeCurrentDriver no driver is current, so a second call releases nothing |
| Asio.LoadKeepsBalance | include/asio-wrapper.cpp:697-737 | loadDriver keeps "every release is paid for by its own activation": at most one release per successful open |
| Asio.LoadResult | include/asio-wrapper.cpp:697-729 | true means an entry of that name below numdrv with a convertible CLSID was tried; then with a successful activation it is current and in its slot, and after a refused one no driver is loaded; false leaves slots and activations unchanged; a name matching no entry changes neither curIndex nor the release counts |
| Asio.Host.constructor | include/asio-wrapper.cpp:132-133 | at process start the list is empty, every slot is null, no AsioDrivers object exists and nothing is released |
| Asio.Host.CreateDriverList | include/asio-wrapper.cpp:500-510 | `new AsioDrivers()`, with curIndex set at lines 663-666: the list is the registry scan, numdrv its length, curIndex -1; COM is initialised exactly when drivers were found |
| Asio.Host.AsioOpenDriver | include/asio-wrapper.cpp:527-565 | four outcomes after the lazy rescan: out of [0, numdrv) DRVERR_DEVICE_NOT_FOUND with nothing changed; an unconvertible CLSID DRVERR_INVALID_PARAM with nothing stored; a successful activation 0 with the new pointer in the entry and in its slot; otherwise DRVERR_DEVICE_ALREADY_OPEN |
| Asio.Host.AsioCloseDriver | include/asio-wrapper.cpp:568-584 | in range: one release of the stored pointer and 0, with entry and slot left as they were; otherwise DRVERR_DEVICE_NOT_FOUND |
| Asio.Host.RemoveCurrentDriver | include/asio-wrapper.cpp:731-737 | releases the current driver once if there is one, and leaves none current |
| Asio.Host.AsioGetDriverName | include/asio-wrapper.cpp:586-616 | ASE_OK if and only if the index is in range, the buffer is not null and the name is shorter than the size converted to `size_t`, so a negative size always passes; then the buffer holds the name, its NUL, and its old tail; on failure the buffer is untouched and the result is DRVERR_DEVICE_NOT_FOUND or DRVERR_INVALID_PARAM |
| Asio.Host.AsioGetDriverPath | include/asio-wrapper.cpp:618-623 | always DRVERR_INVALID_PARAM |
| Asio.Host.AsioGetDriverClsid | include/asio-wrapper.cpp:625-648 | out of range DRVERR_DEVICE_NOT_FOUND with *clsid unchanged; in range *clsid is the conversion's result and the status is the conversion's failure, or DRVERR_DEVICE_NOT_FOUND on success |
| Asio.Host.GetCurrentDriverName | include/asio-wrapper.cpp:672-679 | true if and only if the index is below numdrv and the name fits 32 characters, with the name copied; out of range the buffer becomes the empty C string |
| Asio.Host.GetDriverNames | include/asio-wrapper.cpp:681-694 | the first min(numdrv, maxDrivers) buffers receive their driver's name when it fits, the others are untouched; the count is numdrv when below maxDrivers, else 0 |
| Asio.Host.RememberName | include/asio-wrapper.cpp:707-708 | the remembered buffer is empty or holds the target entry's own name |
| Asio.Host.OpenEntry | include/asio-wrapper.cpp:711-725 | the open and the switch of one entry: the result code says which case applied; the rollback guard never holds |
| Asio.Host.LoadEntry | include/asio-wrapper.cpp:706-725 | one matching entry: the current driver is released, then the open's case decides the new state |
| Asio.Host.SearchEntry | include/asio-wrapper.cpp:705-726 | one iteration of the search: only DRVERR_INVALID_PARAM, or a name that differs, lets the loop continue |
| Asio.Host.LoadDriver | include/asio-wrapper.cpp:697-729 | the whole loadDriver as `LoadOutcome` states it: lazy rescan, first stopping entry, one release, the switch's effect and its result |
| Asio.Host.LoadAsioDriver | include/asio-wrapper.cpp:652-659 | creates the AsioDrivers object on first use, then has loadDriver's outcome |
| Asio.Host.AsioInit | include/asio-wrapper.cpp:175-193 | version 0 and name " Unset " first; with no driver ASE_NotPresent; a failing init empties only the slot; otherwise the driver's name and version, the fixed message, and ASE_OK |
| Asio.Host.AsioExit | include/asio-wrapper.cpp:157-164 | with a driver in slot index, the current driver (not necessarily that one) is released; slot index is emptied; always ASE_OK |
| Asio.Host.AsioStart | include/asio-wrapper.cpp:139-146 | with no driver ASE_NotPresent and no driver call, else exactly one start call and its result |
| Asio.Host.AsioStop | include/asio-wrapper.cpp:148-155 | as AsioStart, for stop |
| Asio.Host.AsioOutputReady | include/asio-wrapper.cpp:166-173 | as AsioStart, for outputReady |
| Asio.Host.AsioControlPanel | include/asio-wrapper.cpp:197-204 | as AsioStart, for controlPanel |
| Asio.Host.AsioFuture | include/asio-wrapper.cpp:206-213 | as AsioStart, for future with its selector |
| Asio.Host.AsioGetSampleRate | include/asio-wrapper.cpp:218-225 | as AsioStart, for getSampleRate; with no driver *rate is not written |
| Asio.Host.AsioGetBufferSize | include/asio-wrapper.cpp:227-238 | as AsioStart, for getBufferSize; with no driver all four sizes are 0 |
| Asio.Host.AsioGetClockSources | include/asio-wrapper.cpp:240-248 | as AsioStart, for getClockSources; with no driver *sources is 0 |
| Asio.Host.AsioGetChannels | include/asio-wrapper.cpp:251-260 | as AsioStart, for getChannels; with no driver both counts are 0 |
| Asio.Host.AsioGetChannelInfo | include/asio-wrapper.cpp:263-273 | as AsioStart, for getChannelInfo; with no driver channelGroup -1, name " ", type ASIOSTFloat32LSB and the other fields kept |
| Asio.Host.AsioGetLatencies | include/asio-wrapper.cpp:275-284 | as AsioStart, for getLatencies; with no driver both latencies are 0 |
| Asio.Host.AsioGetSamplePosition | include/asio-wrapper.cpp:286-293 | as AsioStart, for getSamplePosition; with no driver nothing is written |
| Asio.Host.AsioCanSampleRate | include/asio-wrapper.cpp:296-303 | as AsioStart, for canSampleRate with its rate |
| Asio.Host.AsioSetSampleRate | include/asio-wrapper.cpp:309-316 | as AsioStart, for setSampleRate with its rate |
| Asio.Host.AsioSetClockSource | include/asio-wrapper.cpp:318-325 | as AsioStart, for setClockSource with its reference |
| Asio.Host.AsioCreateBuffers | include/asio-wrapper.cpp:330-348 | as AsioStart, for createBuffers; with no driver both buffer pointers of exactly the first `channels` entries become null and nothing else changes |
| Asio.Host.AsioDisposeBuffers | include/asio-wrapper.cpp:350-357 | as AsioStart, for disposeBuffers |

## Left out

- The Windows registry API (`RegOpenKeyEx`, `RegEnumKeyEx`, `RegGetValue`, `RegCloseKey`) is foreign. The registry is the `Store` input. A value that does not fit in 256 bytes counts as unreadable.
- COM is foreign. `CoInitialize`, `CoUninitialize`, `CLSIDFromString`, `CoCreateInstance` and `IUnknown::Release` are modelled by oracle inputs. Release is a ghost count, and the CoInitialize pairing is a ghost flag.
- What the `IASIO` methods do inside a driver is foreign (include/asio-wrapper.hpp:471-497). The model records which method an entry point calls and returns the answer given as input. With a driver present, the model promises nothing about what the driver writes into caller buffers such as the clock array or `bufInfo`.
- The destructors are out of scope: `AsioDriverList::~AsioDriverList` (include/asio-wrapper.cpp:512-517) and `AsioDrivers::~AsioDrivers`. Nothing in the core deletes the object.
- `asioGetNumDev` (include/asio-wrapper.cpp:519-522) has no member of its own: the model reads `numdrv` directly.
- Asio.Host.AsioOpenDriver: has no `asiodrv` out-parameter. Its only caller passes `&DriverVect[i]` (include/asio-wrapper.cpp:711). On success the code stores the same pointer there explicitly, and after a refused activation loadDriver nulls that slot itself.
- The character-set helpers `CHARToWstring`, `TCHARToUTF8`, `UTF8ToWide` and `utf8_encode` (include/asio-wrapper.cpp:392-426) are thin library wrappers. Strings pass through unchanged.
- No logging is modelled. That includes the `printf` of a GUID structure through `%s` at include/asio-wrapper.cpp:388, which is undefined behaviour.
- `ASIOSampleRate` is a double. It is passed through as 64 opaque bits, and no floating-point arithmetic is modelled.
- The code's types are unbounded in the model. `long` and `int` indices and counts are unbounded integers. This does not matter here, because the source does no arithmetic on them beyond comparisons and `i++` up to small bounds. The one comparison where width matters, `str.length() < drvnamesize` at include/asio-wrapper.cpp:605, converts the `int` to `size_t`; the model writes that conversion out as `SizeT`.
- Streaming callbacks, buffer switching and the unused `DriverPtr` (include/asio-wrapper.cpp:131) are out of scope. So is the demonstration program tests/record.cpp.
- GuidCodec.StringToGuid: does not reproduce the `sscanf` call at include/asio-wrapper.cpp:380-384. That call's width-less `%hhX` conversions read greedily and accept a sign, so as written it cannot split the two-digit groups. The model decodes the fixed-width form that the error message at include/asio-wrapper.cpp:387 names instead.
- Asio.Host.CreateDriverList: requires at most 8 installed drivers. `DriverVect` has 8 cells, and the source writes it at any index below `numdrv` (include/asio-wrapper.cpp:553), so more drivers would overflow it.
- Asio.Host.LoadAsioDriver: has the same at-most-8 requirement on first use. It inherits it from CreateDriverList.
- Asio.Host.AsioCloseDriver: requires the entry at an in-range index to hold a pointer. The source calls `Release` on it without a null check (include/asio-wrapper.cpp:573-577). The field is indeterminate until a successful open.
- Asio.Host.AsioStart and every other ASIO* entry point: require 0 <= index < 8. The source never checks `index` before reading `DriverVect[index]` (include/asio-wrapper.cpp:141).
- Asio.Host.AsioGetDriverName: requires a non-null buffer to hold the name and its NUL when the copy goes ahead, as `memcpy` and the NUL store need.
- Asio.Host.GetDriverNames: requires the buffers it writes to exist, to hold 32 characters, and to be distinct objects. The source accepts aliased buffers, and there the later copy wins. The model's postcondition states each buffer's contents separately, which needs disjoint buffers.
- Asio.Host.AsioCreateBuffers: requires `bufInfo` to have at least `channels` entries.
- The model has one `AsioDrivers` object per process: CreateDriverList requires that none exists yet. That is the only way the source creates one (include/asio-wrapper.cpp:654-656).

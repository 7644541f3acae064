# USB configuration descriptor model

A Dafny model of `UsbConfiguration`, the value object through which the
Android libusb wrapper exposes one configuration of a USB device to
applications. The model covers four things:

- the configuration's state (id, optional name, raw bmAttributes, raw
  bMaxPower, the interface array): the constructor stores its arguments
  unchanged, and `getId` and `getName` return two of them;
- the two attribute flags, which are single-bit masks on bmAttributes, and
  the milliamp conversion of bMaxPower;
- building a configuration from the native configuration descriptor: fixed
  byte offsets, each signed Java byte masked back to an unsigned octet,
  following Table 9-10 in section 9.6.3 of the USB 2.0 specification;
- marshalling through an Android `Parcel` and back.

Files and modules:

- `java_types.dfy`, module `JavaTypes`. The Java primitives the class is written in. `int` is a
  32-bit subset type with explicit wrap-around (`Wrap32`), and `byte` is signed. `0xFF & b`
  and `(byte) u` are inverse maps. `x & mask` is computed on the 32-bit pattern (`bv32`), and
  `BitSet` is an arithmetic reference definition of a single two's-complement bit. Null
  references are `Option`, and the exceptions the class can throw are `Result.Throw`.
- `configurations.dfy`, module `Configurations`. The configuration datatype, the constructor,
  the flag predicates, the power conversion, `setInterfaces`, `getInterfaceCount` and
  `getInterface`.
- `descriptors.dfy`, module `ConfigurationDescriptors`. The byte-offset decoding in
  `fromNativeObject`. `Serialize` is its right inverse: it builds the descriptor a device sends
  for given field values, and decoding that descriptor gives the values back.
- `parcels.dfy`, module `ConfigurationParcels`. A parcel is a first-in first-out sequence of
  typed entries read through a cursor. The module holds `writeToParcel`, `createFromParcel`
  and the round-trip lemmas.

The native calls become inputs:

- the descriptor returned by `nativeGetConfiguration` is the byte sequence `descriptor`;
- `nativeGetConfigurationName` is the function `nameOf` from string index to optional name;
- `nativeGetInterface` followed by `UsbInterface.fromNativeObject` is the function `interfaceAt`
  from interface index to interface.

Interfaces are opaque values.

## Model

| member | source | states |
|---|---|---|
| Configurations.ConstructorStoresArguments | library/src/main/java/com/jwoolston/android/libusb/UsbConfiguration.java:58-83 | the fields hold the id, name, attributes and raw maxPower the constructor was given, unchanged (so `getId` and `getName` return the first two), and the interface array is still null |
| Configurations.IsSelfPowered | library/src/main/java/com/jwoolston/android/libusb/UsbConfiguration.java:91-93 | `attributes & (1 << 6)` is non-zero exactly when bit D6 (weight 64) of the two's-complement attributes value is set, for every `int` value including negative ones |
| Configurations.IsRemoteWakeup | library/src/main/java/com/jwoolston/android/libusb/UsbConfiguration.java:101-103 | `attributes & (1 << 5)` is non-zero exactly when bit D5 (weight 32) of the attributes is set |
| Configurations.ToggleSelfPoweredKeepsRemoteWakeup | library/src/main/java/com/jwoolston/android/libusb/UsbConfiguration.java:36-41 | the two masks are disjoint: flipping D6 flips isSelfPowered and never changes isRemoteWakeup |
| Configurations.ToggleRemoteWakeupKeepsSelfPowered | library/src/main/java/com/jwoolston/android/libusb/UsbConfiguration.java:36-41 | flipping D5 flips isRemoteWakeup and never changes isSelfPowered |
| Configurations.FlagsOfAttributesFor | library/src/main/java/com/jwoolston/android/libusb/UsbConfiguration.java:85-103 | for a bmAttributes byte laid out per USB 2.0 (D7 set, D6 and D5 from two flags, low bits zero) the two predicates return those two flags |
| Configurations.MaxPowerMilliamps | library/src/main/java/com/jwoolston/android/libusb/UsbConfiguration.java:110-112 | the result is congruent to twice the raw value modulo 2^32 (Java `int` wrap-around), and equals twice the raw value whenever that fits in an `int` |
| Configurations.MaxPowerOfByte | library/src/main/java/com/jwoolston/android/libusb/UsbConfiguration.java:110-112 | for a raw value in 0..255 the result is exactly twice it, even, and within 0..510 mA |
| Configurations.InterfacesUnsetAfterConstruction | library/src/main/java/com/jwoolston/android/libusb/UsbConfiguration.java:119-131 | before setInterfaces, getInterfaceCount and getInterface throw NullPointerException |
| Configurations.SetInterfaces | library/src/main/java/com/jwoolston/android/libusb/UsbConfiguration.java:136-138 | succeeds exactly when the array and all its elements are non-null, and otherwise throws NullPointerException; on success only the interface array changes, and it holds the array's elements in order |
| Configurations.GetAfterSetInterfaces | library/src/main/java/com/jwoolston/android/libusb/UsbConfiguration.java:119-138 | after setInterfaces, getInterfaceCount is the array length; getInterface(i) is element i for 0 <= i < length and throws ArrayIndexOutOfBoundsException for any other index |
| JavaTypes.MaskByte | library/src/main/java/com/jwoolston/android/libusb/UsbConfiguration.java:192-196 | `0xFF & b` yields the octet in 0..255 congruent to the signed byte modulo 256 |
| ConfigurationDescriptors.UnsignedAt | library/src/main/java/com/jwoolston/android/libusb/UsbConfiguration.java:192-196 | reading offset k succeeds exactly when k is inside the buffer, and otherwise throws IndexOutOfBoundsException; the octet read is the one whose Java byte is stored at k |
| ConfigurationDescriptors.ParseFields | library/src/main/java/com/jwoolston/android/libusb/UsbConfiguration.java:183-196 | the fields come from offsets 4 (bNumInterfaces), 5 (bConfigurationValue), 6 (iConfiguration), 7 (bmAttributes) and 8 (bMaxPower), each as an unsigned octet; a buffer of 8 bytes or fewer throws IndexOutOfBoundsException |
| ConfigurationDescriptors.ParseSerialized | library/src/main/java/com/jwoolston/android/libusb/UsbConfiguration.java:183-196 | decoding a USB 2.0 configuration descriptor built from any field values gives those values back, whatever bytes follow it |
| ConfigurationDescriptors.ParseReadsOnlyFieldBytes | library/src/main/java/com/jwoolston/android/libusb/UsbConfiguration.java:190-196 | bLength, bDescriptorType and wTotalLength are never checked: two buffers that agree on bytes 4..8 decode alike |
| ConfigurationDescriptors.Decode | library/src/main/java/com/jwoolston/android/libusb/UsbConfiguration.java:190-207 | id, name (looked up by the iConfiguration index), attributes and raw maxPower come from the descriptor fields; the interface count equals bNumInterfaces, and interface i is the one built for descriptor index i |
| ConfigurationDescriptors.FromNativeObject | library/src/main/java/com/jwoolston/android/libusb/UsbConfiguration.java:199-204 | filling a fresh all-null array index by index and then installing it gives the configuration Decode describes |
| ConfigurationDescriptors.DecodedFieldRanges | library/src/main/java/com/jwoolston/android/libusb/UsbConfiguration.java:192-196 | a decoded id and attributes lie in 0..255; the power is exactly twice the bMaxPower octet, even and at most 510 mA; the flags are bits D6 and D5 of the bmAttributes octet |
| ConfigurationDescriptors.DecodeBusPowered | library/src/main/java/com/jwoolston/android/libusb/UsbConfiguration.java:190-207 | a bus-powered 100 mA descriptor with one interface decodes to id 1, one interface, neither flag, and 100 mA |
| ConfigurationDescriptors.DecodeSelfPoweredRemoteWakeup | library/src/main/java/com/jwoolston/android/libusb/UsbConfiguration.java:190-207 | attribute byte 0xE0 and power byte 0xFA, both negative as Java bytes, decode to 224 and 250: both flags are set and the power is 500 mA |
| ConfigurationParcels.ReadInt | library/src/main/java/com/jwoolston/android/libusb/UsbConfiguration.java:156-159 | reads the int entry under the cursor and advances by one; any other entry, or none, is an error |
| ConfigurationParcels.ReadString | library/src/main/java/com/jwoolston/android/libusb/UsbConfiguration.java:157 | reads the (possibly null) string entry under the cursor and advances by one; any other entry, or none, is an error |
| ConfigurationParcels.ReadParcelableArray | library/src/main/java/com/jwoolston/android/libusb/UsbConfiguration.java:160 | reads the (possibly null) array entry under the cursor and advances by one |
| ConfigurationParcels.WriteToParcel | library/src/main/java/com/jwoolston/android/libusb/UsbConfiguration.java:175-181 | appends exactly five entries and leaves what the parcel already held untouched |
| ConfigurationParcels.CreateFromParcel | library/src/main/java/com/jwoolston/android/libusb/UsbConfiguration.java:155-164 | on success the five entries under the cursor are id, name, attributes, raw maxPower and the interface array of the rebuilt configuration, in that order, and the cursor moves past them |
| ConfigurationParcels.ParcelRoundTrip | library/src/main/java/com/jwoolston/android/libusb/UsbConfiguration.java:155-181 | reading back what writeToParcel wrote rebuilds an identical configuration, including the raw unscaled maxPower; when the interfaces were never set it throws NullPointerException instead |
| ConfigurationParcels.ParcelKeepsOrder | library/src/main/java/com/jwoolston/android/libusb/UsbConfiguration.java:155-181 | two configurations written one after the other are read back in the same order |
| ConfigurationParcels.DecodedConfigurationSurvivesParcel | library/src/main/java/com/jwoolston/android/libusb/UsbConfiguration.java:155-207 | every configuration decoded from a descriptor survives a parcel round trip unchanged and still reports twice its bMaxPower octet in milliamps |

## Left out

- The native calls `nativeGetConfiguration`, `nativeGetConfigurationName`, `nativeGetInterface`
  and `nativeDestroy` are foreign code. The first three become inputs (the descriptor bytes,
  `nameOf`, `interfaceAt`). Releasing the native object has no effect on the result, so it
  is not modelled.
- `UsbInterface.fromNativeObject` and the interface class itself are not part of this model.
  Interfaces are opaque values.
- `toString` only produces diagnostic text.
- `describeContents` and `CREATOR.newArray` are boilerplate.
- The byte layout of an Android `Parcel` is not modelled. A read of an absent entry, or of an
  entry of another kind, throws `BadParcel`. Android behaves differently:
  - past the end of the data, `readInt` returns 0 and `readString` returns null;
  - `readParcelableArray` reads its length with `readInt`, so past the end it returns an
    empty array, not null;
  - a read of the wrong kind reinterprets the bytes that are there; for example, `readInt`
    over a string returns the string's length.
- ConfigurationParcels.CreateFromParcel: throws `BadParcel` on a parcel that runs out at or
  before the interface array. In Java, `createFromParcel` (UsbConfiguration.java lines
  156-162) succeeds there, because `setInterfaces` accepts the empty array. The fields read
  past the end are 0 (or a null name), and the configuration has no interfaces. An empty
  parcel thus gives id 0, a null name, attributes 0 and maxPower 0. The round trip never
  reaches that case.
- `Preconditions.checkArrayElementsNotNull` (imported at UsbConfiguration.java line 23) is not
  part of this model. Configurations.SetInterfaces assumes it behaves like the Android
  utility of that name, which throws NullPointerException for a null array or a null element.
- Configurations.SetInterfaces: keeps a copy of the array's elements, whereas Java keeps a
  reference to the caller's array. A caller that later writes into that array (a null, or
  another interface) changes what the configuration returns in Java. The model does not
  show that.
- ConfigurationParcels.WriteToParcel and ConfigurationParcels.CreateFromParcel: the parcel
  carries the interface values themselves. Java writes and rebuilds each element through
  `UsbInterface`'s own `writeToParcel` and `CREATOR` (UsbConfiguration.java lines 160 and 180).
  That code is not part of this model, so the round-trip lemmas assume it gives back an
  equal interface.
- ConfigurationDescriptors.Decode: `interfaceAt` is total and never returns null.
  `UsbInterface.fromNativeObject` (line 201) is not part of this model. If it returned
  null, `setInterfaces` (line 204) would throw NullPointerException.
  ConfigurationParcels.DecodedConfigurationSurvivesParcel depends on this assumption.
- Configurations.GetInterface: the cast of the stored `Parcelable` to `UsbInterface` is not
  modelled, because only interfaces are ever stored. The ClassCastException it could raise
  is therefore absent.
- Configurations.InterfaceCount: returns an unbounded `nat`. A Java array length always fits
  in an `int`, so nothing is lost.
- `BlockDeviceDriverFactory.createBlockDevice` only chooses between two driver classes. Those
  SCSI block-device driver classes are not part of this model, so there is nothing to prove
  about the choice.
- `InterruptTransferCallback` is an interface declaration with no behaviour.

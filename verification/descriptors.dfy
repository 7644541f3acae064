/**
 Building a configuration from the standard USB configuration descriptor
 (Table 9-10 in section 9.6.3 of the USB 2.0 specification). The native
 layer hands over the descriptor as a byte buffer of signed Java bytes;
 the fields are read at fixed offsets and masked back to unsigned octets.
 The configuration's name and its interfaces also come from the native
 layer, so they enter the model as the functions `nameOf` and `interfaceAt`.
 */
module ConfigurationDescriptors {
  import opened JavaTypes
  import opened Configurations

  const INDEX_NUMBER_INTERFACES: nat := 4
  const INDEX_CONFIGURATION_VALUE: nat := 5
  const INDEX_CONFIGURATION_STRING_INDEX: nat := 6
  const INDEX_ATTRIBUTES: nat := 7
  const INDEX_MAX_POWER: nat := 8

  /** bLength and bDescriptorType of a configuration descriptor. */
  const CONFIGURATION_DESCRIPTOR_LENGTH: Uint8 := 9
  const CONFIGURATION_DESCRIPTOR_TYPE: Uint8 := 2

  /** The descriptor fields the configuration is built from, as unsigned octets. */
  datatype DescriptorFields = DescriptorFields(
    numInterfaces: Uint8,       // bNumInterfaces
    configurationValue: Uint8,  // bConfigurationValue
    stringIndex: Uint8,         // iConfiguration
    attributes: Uint8,          // bmAttributes
    maxPower: Uint8)            // bMaxPower, in units of 2 mA

  /** `0xFF & buffer.get(index)`: the octet stored at `index`, or an
      IndexOutOfBoundsException past the end of the buffer. */
  function UnsignedAt(buffer: seq<JavaByte>, index: nat): (r: Result<Uint8>)
    ensures r.Ok? <==> index < |buffer|
    ensures r.Throw? ==> r.error == IndexOutOfBounds
    ensures r.Ok? ==> ToJavaByte(r.value) == buffer[index]
  {
    if index < |buffer| then Ok(MaskByte(buffer[index])) else Throw(IndexOutOfBounds)
  }

  /** Reads the five fields at their offsets. The first four bytes (bLength,
      bDescriptorType, wTotalLength) are neither read nor checked. */
  function ParseFields(buffer: seq<JavaByte>): (r: Result<DescriptorFields>)
    ensures r.Ok? <==> |buffer| > INDEX_MAX_POWER
    ensures r.Throw? ==> r.error == IndexOutOfBounds
    ensures r.Ok? ==> ToJavaByte(r.value.numInterfaces) == buffer[INDEX_NUMBER_INTERFACES]
    ensures r.Ok? ==> ToJavaByte(r.value.configurationValue) == buffer[INDEX_CONFIGURATION_VALUE]
    ensures r.Ok? ==> ToJavaByte(r.value.stringIndex) == buffer[INDEX_CONFIGURATION_STRING_INDEX]
    ensures r.Ok? ==> ToJavaByte(r.value.attributes) == buffer[INDEX_ATTRIBUTES]
    ensures r.Ok? ==> ToJavaByte(r.value.maxPower) == buffer[INDEX_MAX_POWER]
  {
    var numInterfaces :- UnsignedAt(buffer, INDEX_NUMBER_INTERFACES);
    var configurationValue :- UnsignedAt(buffer, INDEX_CONFIGURATION_VALUE);
    var stringIndex :- UnsignedAt(buffer, INDEX_CONFIGURATION_STRING_INDEX);
    var attributes :- UnsignedAt(buffer, INDEX_ATTRIBUTES);
    var maxPower :- UnsignedAt(buffer, INDEX_MAX_POWER);
    Ok(DescriptorFields(numInterfaces, configurationValue, stringIndex, attributes, maxPower))
  }

  /** The nine-byte configuration descriptor a device sends for the given
      fields and wTotalLength (little-endian), as signed Java bytes. */
  function Serialize(f: DescriptorFields, totalLength: Uint16): (buffer: seq<JavaByte>)
    ensures |buffer| == CONFIGURATION_DESCRIPTOR_LENGTH
    ensures MaskByte(buffer[0]) == CONFIGURATION_DESCRIPTOR_LENGTH
    ensures MaskByte(buffer[1]) == CONFIGURATION_DESCRIPTOR_TYPE
    ensures MaskByte(buffer[2]) + 0x100 * MaskByte(buffer[3]) == totalLength
  {
    [ ToJavaByte(CONFIGURATION_DESCRIPTOR_LENGTH),
      ToJavaByte(CONFIGURATION_DESCRIPTOR_TYPE),
      ToJavaByte(totalLength % 0x100),
      ToJavaByte(totalLength / 0x100),
      ToJavaByte(f.numInterfaces),
      ToJavaByte(f.configurationValue),
      ToJavaByte(f.stringIndex),
      ToJavaByte(f.attributes),
      ToJavaByte(f.maxPower) ]
  }

  /** Parsing a serialized descriptor, whatever follows it in the buffer,
      gives back the fields it was built from. */
  lemma ParseSerialized(f: DescriptorFields, totalLength: Uint16, trailing: seq<JavaByte>)
    ensures ParseFields(Serialize(f, totalLength) + trailing) == Ok(f)
  {
  }

  /** Only bytes 4 to 8 matter: buffers that agree there parse alike. */
  lemma ParseReadsOnlyFieldBytes(a: seq<JavaByte>, b: seq<JavaByte>)
    requires |a| > INDEX_MAX_POWER && |b| > INDEX_MAX_POWER
    requires a[INDEX_NUMBER_INTERFACES..INDEX_MAX_POWER + 1] == b[INDEX_NUMBER_INTERFACES..INDEX_MAX_POWER + 1]
    ensures ParseFields(a) == ParseFields(b)
  {
    var sa, sb := a[INDEX_NUMBER_INTERFACES..INDEX_MAX_POWER + 1], b[INDEX_NUMBER_INTERFACES..INDEX_MAX_POWER + 1];
    assert a[INDEX_NUMBER_INTERFACES] == sa[0] == sb[0] == b[INDEX_NUMBER_INTERFACES];
    assert a[INDEX_CONFIGURATION_VALUE] == sa[1] == sb[1] == b[INDEX_CONFIGURATION_VALUE];
    assert a[INDEX_CONFIGURATION_STRING_INDEX] == sa[2] == sb[2] == b[INDEX_CONFIGURATION_STRING_INDEX];
    assert a[INDEX_ATTRIBUTES] == sa[3] == sb[3] == b[INDEX_ATTRIBUTES];
    assert a[INDEX_MAX_POWER] == sa[4] == sb[4] == b[INDEX_MAX_POWER];
  }

  /** The interfaces of a configuration with n of them, in descriptor order. */
  function InterfacesInOrder(n: nat, interfaceAt: nat -> UsbInterface): (s: seq<UsbInterface>)
    ensures |s| == n
    ensures forall i :: 0 <= i < n ==> s[i] == interfaceAt(i)
  {
    seq(n, i requires 0 <= i < n => interfaceAt(i))
  }

  /** The configuration the native descriptor describes. */
  function Decode(descriptor: seq<JavaByte>, nameOf: Uint8 -> Option<string>,
                  interfaceAt: nat -> UsbInterface): (r: Result<UsbConfiguration>)
    ensures r.Ok? <==> |descriptor| > INDEX_MAX_POWER
    ensures r.Throw? ==> r.error == IndexOutOfBounds
    ensures r.Ok? ==>
      var f := ParseFields(descriptor).value;
      && r.value.id == f.configurationValue
      && r.value.name == nameOf(f.stringIndex)
      && r.value.attributes == f.attributes
      && r.value.maxPower == f.maxPower
      && InterfaceCount(r.value) == Ok(f.numInterfaces)
      && forall i: Int32 :: 0 <= i < f.numInterfaces ==> GetInterface(r.value, i) == Ok(interfaceAt(i))
  {
    var f :- ParseFields(descriptor);
    var configuration := New(f.configurationValue, nameOf(f.stringIndex), f.attributes, f.maxPower);
    var interfaces := AsArray(InterfacesInOrder(f.numInterfaces, interfaceAt));
    var r := SetInterfaces(configuration, Some(interfaces));
    assert forall i: Int32 :: 0 <= i < f.numInterfaces ==> GetInterface(r.value, i) == Ok(interfaceAt(i)) by {
      forall i: Int32 | 0 <= i < f.numInterfaces
        ensures GetInterface(r.value, i) == Ok(interfaceAt(i))
      {
        GetAfterSetInterfaces(configuration, Some(interfaces), i);
      }
    }
    r
  }

  /** The native factory: reads the fields, builds the configuration, then
      fills a fresh (all-null) interface array index by index. */
  method FromNativeObject(descriptor: seq<JavaByte>, nameOf: Uint8 -> Option<string>,
                          interfaceAt: nat -> UsbInterface) returns (r: Result<UsbConfiguration>)
    ensures r == Decode(descriptor, nameOf, interfaceAt)
  {
    var fields := ParseFields(descriptor);
    if fields.Throw? {
      return Throw(fields.error);
    }
    var f := fields.value;
    var name := nameOf(f.stringIndex);
    var configuration := New(f.configurationValue, name, f.attributes, f.maxPower);
    var usbInterfaces: seq<Option<UsbInterface>> := seq(f.numInterfaces, _ => None);
    var i := 0;
    while i < f.numInterfaces
      invariant 0 <= i <= f.numInterfaces
      invariant |usbInterfaces| == f.numInterfaces
      invariant forall j :: 0 <= j < i ==> usbInterfaces[j] == Some(interfaceAt(j))
      invariant forall j :: i <= j < f.numInterfaces ==> usbInterfaces[j].None?
    {
      usbInterfaces := usbInterfaces[i := Some(interfaceAt(i))];
      i := i + 1;
    }
    assert usbInterfaces == AsArray(InterfacesInOrder(f.numInterfaces, interfaceAt));
    r := SetInterfaces(configuration, Some(usbInterfaces));
  }

  /** A decoded configuration holds byte-sized fields, so its power in
      milliamps is exact, even and at most 510, and its flags are bits D6
      and D5 of the bmAttributes octet. */
  lemma DecodedFieldRanges(descriptor: seq<JavaByte>, nameOf: Uint8 -> Option<string>,
                           interfaceAt: nat -> UsbInterface)
    requires Decode(descriptor, nameOf, interfaceAt).Ok?
    ensures var c := Decode(descriptor, nameOf, interfaceAt).value;
      && 0 <= c.id < 0x100
      && 0 <= c.attributes < 0x100
      && MaxPowerMilliamps(c) == 2 * MaskByte(descriptor[INDEX_MAX_POWER])
      && MaxPowerMilliamps(c) % 2 == 0
      && 0 <= MaxPowerMilliamps(c) <= 510
      && (IsSelfPowered(c) <==> BitSet(MaskByte(descriptor[INDEX_ATTRIBUTES]), 0x40))
      && (IsRemoteWakeup(c) <==> BitSet(MaskByte(descriptor[INDEX_ATTRIBUTES]), 0x20))
  {
  }

  /** A bus-powered configuration drawing 100 mA with one interface. */
  lemma DecodeBusPowered(nameOf: Uint8 -> Option<string>, interfaceAt: nat -> UsbInterface)
    ensures var r := Decode([9, 2, 0x19, 0, 1, 1, 0, -0x80, 0x32], nameOf, interfaceAt);
      && r.Ok?
      && r.value.id == 1
      && InterfaceCount(r.value) == Ok(1)
      && !IsSelfPowered(r.value) && !IsRemoteWakeup(r.value)
      && MaxPowerMilliamps(r.value) == 100
  {
  }

  /** A self-powered configuration with remote wakeup drawing 500 mA: the
      attribute and power bytes are negative as Java bytes and come back
      unsigned. */
  lemma DecodeSelfPoweredRemoteWakeup(nameOf: Uint8 -> Option<string>, interfaceAt: nat -> UsbInterface)
    ensures var r := Decode([9, 2, 0x20, 0, 2, 3, 4, -0x20, -6], nameOf, interfaceAt);
      && r.Ok?
      && r.value.id == 3
      && r.value.name == nameOf(4)
      && r.value.attributes == 0xE0
      && r.value.maxPower == 0xFA
      && IsSelfPowered(r.value) && IsRemoteWakeup(r.value)
      && MaxPowerMilliamps(r.value) == 500
  {
  }
}

/**
 A USB configuration as the library exposes it to applications: the
 configuration value (its id), an optional name, the raw bmAttributes and
 bMaxPower fields of the configuration descriptor, and the interfaces the
 configuration contains. The value is immutable except for its interface
 array, which is filled in once after construction.
 */
module Configurations {
  import opened JavaTypes

  /** Mask of bmAttributes bit D6: the device has a power source of its own. */
  const ATTR_SELF_POWERED: bv32 := 1 << 6

  /** Mask of bmAttributes bit D5: the device may wake the host from suspend. */
  const ATTR_REMOTE_WAKEUP: bv32 := 1 << 5

  /** An interface of a configuration. Its contents belong to the interface
      class, which is not part of this model; the handle only tells one
      interface from another. */
  datatype UsbInterface = UsbInterface(handle: nat)

  datatype UsbConfiguration = UsbConfiguration(
    id: Int32,
    name: Option<string>,
    attributes: Int32,
    maxPower: Int32,                        // raw bMaxPower, in units of 2 mA
    interfaces: Option<seq<UsbInterface>>)  // None until the interfaces are set

  /** The constructor: the four scalar fields as given, no interfaces yet. */
  function New(id: Int32, name: Option<string>, attributes: Int32, maxPower: Int32): (c: UsbConfiguration) {
    UsbConfiguration(id, name, attributes, maxPower, None)
  }

  /** The fields hold exactly what the constructor was given. */
  lemma ConstructorStoresArguments(id: Int32, name: Option<string>, attributes: Int32, maxPower: Int32)
    ensures New(id, name, attributes, maxPower).id == id
    ensures New(id, name, attributes, maxPower).name == name
    ensures New(id, name, attributes, maxPower).attributes == attributes
    ensures New(id, name, attributes, maxPower).maxPower == maxPower
    ensures New(id, name, attributes, maxPower).interfaces.None?
  {
  }

  /** Whether bit D6 of the attributes is set. */
  function IsSelfPowered(c: UsbConfiguration): (r: bool)
    ensures r <==> BitSet(c.attributes, 0x40)
  {
    MaskTestBit6(c.attributes);
    MaskTest(c.attributes, ATTR_SELF_POWERED)
  }

  /** Whether bit D5 of the attributes is set. */
  function IsRemoteWakeup(c: UsbConfiguration): (r: bool)
    ensures r <==> BitSet(c.attributes, 0x20)
  {
    MaskTestBit5(c.attributes);
    MaskTest(c.attributes, ATTR_REMOTE_WAKEUP)
  }

  /** The maximum power draw in milliamps: twice the raw value, computed in
      Java `int` arithmetic. */
  function MaxPowerMilliamps(c: UsbConfiguration): (ma: Int32)
    ensures (ma - 2 * c.maxPower) % TWO_POW_32 == 0
    ensures -0x4000_0000 <= c.maxPower < 0x4000_0000 ==> ma == 2 * c.maxPower
  {
    Wrap32(c.maxPower * 2)
  }

  /** For a raw value that fits a descriptor byte the conversion is exact:
      an even number of milliamps between 0 and 510. */
  lemma MaxPowerOfByte(c: UsbConfiguration)
    requires 0 <= c.maxPower < 0x100
    ensures MaxPowerMilliamps(c) == 2 * c.maxPower
    ensures MaxPowerMilliamps(c) % 2 == 0
    ensures 0 <= MaxPowerMilliamps(c) <= 510
  {
  }

  /** The length of the interface array; a null array throws. */
  function InterfaceCount(c: UsbConfiguration): (r: Result<nat>) {
    if c.interfaces.None? then Throw(NullPointer) else Ok(|c.interfaces.value|)
  }

  /** The interface at `index`; a null array or an index outside the array throws. */
  function GetInterface(c: UsbConfiguration, index: Int32): (r: Result<UsbInterface>) {
    if c.interfaces.None? then Throw(NullPointer)
    else if index < 0 || index >= |c.interfaces.value| then Throw(ArrayIndexOutOfBounds)
    else Ok(c.interfaces.value[index])
  }

  predicate AllNonNull<T>(arr: seq<Option<T>>) {
    forall i :: 0 <= i < |arr| ==> arr[i].Some?
  }

  /** The elements of an array none of whose elements is null. */
  function NonNullElements<T>(arr: seq<Option<T>>): (r: seq<T>)
    requires AllNonNull(arr)
    ensures |r| == |arr|
    ensures forall i :: 0 <= i < |arr| ==> arr[i] == Some(r[i])
  {
    if |arr| == 0 then [] else [arr[0].value] + NonNullElements(arr[1..])
  }

  /** A sequence viewed as a Java array of references, none of them null. */
  function AsArray<T>(s: seq<T>): (arr: seq<Option<T>>)
    ensures AllNonNull(arr)
  {
    seq(|s|, i requires 0 <= i < |s| => Some(s[i]))
  }

  /** Reading back the elements of an array built from a sequence gives the sequence. */
  lemma NonNullElementsOfArray<T>(s: seq<T>)
    ensures NonNullElements(AsArray(s)) == s
  {
  }

  /** An array without null elements is rebuilt from its elements. */
  lemma ArrayOfNonNullElements<T>(arr: seq<Option<T>>)
    requires AllNonNull(arr)
    ensures AsArray(NonNullElements(arr)) == arr
  {
  }

  /** Installs the interface array. The array and each of its elements must
      be non-null, otherwise a NullPointerException is thrown and nothing is
      installed; on success only the interfaces change. */
  function SetInterfaces(c: UsbConfiguration, arr: Option<seq<Option<UsbInterface>>>): (r: Result<UsbConfiguration>)
    ensures r.Ok? <==> arr.Some? && AllNonNull(arr.value)
    ensures r.Throw? ==> r.error == NullPointer
    ensures r.Ok? ==> r.value == c.(interfaces := r.value.interfaces)
    ensures r.Ok? ==> r.value.interfaces.Some? && |r.value.interfaces.value| == |arr.value|
    ensures r.Ok? ==> forall i :: 0 <= i < |arr.value| ==> arr.value[i] == Some(r.value.interfaces.value[i])
  {
    if arr.None? || !AllNonNull(arr.value) then Throw(NullPointer)
    else Ok(c.(interfaces := Some(NonNullElements(arr.value))))
  }

  /** Before the interfaces are set, asking for them throws. */
  lemma InterfacesUnsetAfterConstruction(id: Int32, name: Option<string>, attributes: Int32, maxPower: Int32, index: Int32)
    ensures InterfaceCount(New(id, name, attributes, maxPower)) == Throw(NullPointer)
    ensures GetInterface(New(id, name, attributes, maxPower), index) == Throw(NullPointer)
  {
  }

  /** After a successful SetInterfaces the count is the array's length and
      each index yields the element stored there; any other index throws. */
  lemma GetAfterSetInterfaces(c: UsbConfiguration, arr: Option<seq<Option<UsbInterface>>>, index: Int32)
    requires SetInterfaces(c, arr).Ok?
    ensures InterfaceCount(SetInterfaces(c, arr).value) == Ok(|arr.value|)
    ensures 0 <= index < |arr.value| ==>
      GetInterface(SetInterfaces(c, arr).value, index) == Ok(arr.value[index].value)
    ensures !(0 <= index < |arr.value|) ==>
      GetInterface(SetInterfaces(c, arr).value, index) == Throw(ArrayIndexOutOfBounds)
  {
  }

  /** Toggling D6 flips the self-powered flag and leaves remote wakeup alone. */
  lemma ToggleSelfPoweredKeepsRemoteWakeup(c: UsbConfiguration)
    ensures IsSelfPowered(c.(attributes := FlipBit(c.attributes, 0x40))) != IsSelfPowered(c)
    ensures IsRemoteWakeup(c.(attributes := FlipBit(c.attributes, 0x40))) == IsRemoteWakeup(c)
  {
    FlipBit6KeepsBit5(c.attributes);
  }

  /** Toggling D5 flips the remote-wakeup flag and leaves self-powered alone. */
  lemma ToggleRemoteWakeupKeepsSelfPowered(c: UsbConfiguration)
    ensures IsRemoteWakeup(c.(attributes := FlipBit(c.attributes, 0x20))) != IsRemoteWakeup(c)
    ensures IsSelfPowered(c.(attributes := FlipBit(c.attributes, 0x20))) == IsSelfPowered(c)
  {
    FlipBit5KeepsBit6(c.attributes);
  }

  /** The bmAttributes byte a device reports for the two flags: D7 is
      reserved and set to one, D4..D0 are reserved and zero (Table 9-10 in
      section 9.6.3 of the USB 2.0 specification). */
  function AttributesFor(selfPowered: bool, remoteWakeup: bool): (attributes: Uint8) {
    0x80 + (if selfPowered then 0x40 else 0) + (if remoteWakeup then 0x20 else 0)
  }

  /** The two flags read back from such a byte are the ones it was built from. */
  lemma FlagsOfAttributesFor(c: UsbConfiguration, selfPowered: bool, remoteWakeup: bool)
    requires c.attributes == AttributesFor(selfPowered, remoteWakeup)
    ensures IsSelfPowered(c) == selfPowered
    ensures IsRemoteWakeup(c) == remoteWakeup
  {
  }
}

/**
 Marshalling a configuration through an Android parcel. A parcel is modelled
 as a first-in first-out sequence of typed entries, read through a cursor;
 the byte layout Android gives those entries is not part of this model.
 */
module ConfigurationParcels {
  import opened JavaTypes
  import opened Configurations
  import opened ConfigurationDescriptors

  /** One value written to a parcel. */
  datatype ParcelEntry =
    | IntEntry(i: Int32)                                            // writeInt
    | StringEntry(s: Option<string>)                                // writeString, null allowed
    | ParcelableArrayEntry(items: Option<seq<Option<UsbInterface>>>) // writeParcelableArray, null allowed

  type Parcel = seq<ParcelEntry>

  /** A parcel being read and the position of the next entry to read. */
  datatype Reader = Reader(parcel: Parcel, position: nat)

  /** `readInt`: the next entry must be an int. */
  function ReadInt(rd: Reader): (r: Result<(Int32, Reader)>)
    ensures r.Ok? <==> rd.position < |rd.parcel| && rd.parcel[rd.position].IntEntry?
    ensures r.Throw? ==> r.error == BadParcel
    ensures r.Ok? ==> rd.parcel[rd.position] == IntEntry(r.value.0)
    ensures r.Ok? ==> r.value.1 == rd.(position := rd.position + 1)
  {
    if rd.position < |rd.parcel| && rd.parcel[rd.position].IntEntry? then
      Ok((rd.parcel[rd.position].i, rd.(position := rd.position + 1)))
    else Throw(BadParcel)
  }

  /** `readString`: the next entry must be a (possibly null) string. */
  function ReadString(rd: Reader): (r: Result<(Option<string>, Reader)>)
    ensures r.Ok? <==> rd.position < |rd.parcel| && rd.parcel[rd.position].StringEntry?
    ensures r.Throw? ==> r.error == BadParcel
    ensures r.Ok? ==> rd.parcel[rd.position] == StringEntry(r.value.0)
    ensures r.Ok? ==> r.value.1 == rd.(position := rd.position + 1)
  {
    if rd.position < |rd.parcel| && rd.parcel[rd.position].StringEntry? then
      Ok((rd.parcel[rd.position].s, rd.(position := rd.position + 1)))
    else Throw(BadParcel)
  }

  /** `readParcelableArray`: the next entry must be a (possibly null) array. */
  function ReadParcelableArray(rd: Reader): (r: Result<(Option<seq<Option<UsbInterface>>>, Reader)>)
    ensures r.Ok? <==> rd.position < |rd.parcel| && rd.parcel[rd.position].ParcelableArrayEntry?
    ensures r.Throw? ==> r.error == BadParcel
    ensures r.Ok? ==> rd.parcel[rd.position] == ParcelableArrayEntry(r.value.0)
    ensures r.Ok? ==> r.value.1 == rd.(position := rd.position + 1)
  {
    if rd.position < |rd.parcel| && rd.parcel[rd.position].ParcelableArrayEntry? then
      Ok((rd.parcel[rd.position].items, rd.(position := rd.position + 1)))
    else Throw(BadParcel)
  }

  /** The interface field as the Java array it is written from; a configuration
      whose interfaces were never set writes a null array. */
  function InterfaceArray(c: UsbConfiguration): (arr: Option<seq<Option<UsbInterface>>>) {
    if c.interfaces.None? then None else Some(AsArray(c.interfaces.value))
  }

  /** Appends id, name, attributes, raw maxPower and the interface array, in
      that order, after whatever the parcel already holds. */
  function WriteToParcel(c: UsbConfiguration, parcel: Parcel): (p: Parcel)
    ensures |p| == |parcel| + 5
    ensures p[..|parcel|] == parcel
  {
    parcel + [ IntEntry(c.id),
               StringEntry(c.name),
               IntEntry(c.attributes),
               IntEntry(c.maxPower),
               ParcelableArrayEntry(InterfaceArray(c)) ]
  }

  /** Reads the five entries back in the order they were written, constructs
      the configuration and installs the interface array, which throws if
      the array or one of its elements is null. */
  function CreateFromParcel(rd: Reader): (r: Result<(UsbConfiguration, Reader)>)
    ensures r.Ok? ==> rd.position + 5 <= |rd.parcel|
    ensures r.Ok? ==> r.value.1 == rd.(position := rd.position + 5)
    ensures r.Ok? ==> r.value.0.interfaces.Some?
    ensures r.Ok? ==> rd.parcel[rd.position] == IntEntry(r.value.0.id)
    ensures r.Ok? ==> rd.parcel[rd.position + 1] == StringEntry(r.value.0.name)
    ensures r.Ok? ==> rd.parcel[rd.position + 2] == IntEntry(r.value.0.attributes)
    ensures r.Ok? ==> rd.parcel[rd.position + 3] == IntEntry(r.value.0.maxPower)
    ensures r.Ok? ==> rd.parcel[rd.position + 4] == ParcelableArrayEntry(InterfaceArray(r.value.0))
  {
    var idRead :- ReadInt(rd);
    var nameRead :- ReadString(idRead.1);
    var attributesRead :- ReadInt(nameRead.1);
    var maxPowerRead :- ReadInt(attributesRead.1);
    var interfacesRead :- ReadParcelableArray(maxPowerRead.1);
    var configuration := New(idRead.0, nameRead.0, attributesRead.0, maxPowerRead.0);
    var withInterfaces :- SetInterfaces(configuration, interfacesRead.0);
    ArrayOfNonNullElements(interfacesRead.0.value);
    Ok((withInterfaces, interfacesRead.1))
  }

  /** Writing a configuration and reading it back from the same position
      rebuilds an identical configuration (raw maxPower included) and leaves
      the cursor just past what was written, whatever follows it. A
      configuration whose interfaces were never set writes a null array,
      which cannot be read back. */
  lemma ParcelRoundTrip(c: UsbConfiguration, parcel: Parcel, trailing: Parcel)
    ensures var written := WriteToParcel(c, parcel) + trailing;
      CreateFromParcel(Reader(written, |parcel|)) ==
        if c.interfaces.Some? then Ok((c, Reader(written, |parcel| + 5)))
        else Throw(NullPointer)
  {
    var written := WriteToParcel(c, parcel) + trailing;
    var rd := Reader(written, |parcel|);
    assert written[|parcel|] == IntEntry(c.id);
    assert written[|parcel| + 1] == StringEntry(c.name);
    assert written[|parcel| + 2] == IntEntry(c.attributes);
    assert written[|parcel| + 3] == IntEntry(c.maxPower);
    assert written[|parcel| + 4] == ParcelableArrayEntry(InterfaceArray(c));
    if c.interfaces.Some? {
      NonNullElementsOfArray(c.interfaces.value);
    }
  }

  /** Two configurations written one after the other come back in the same
      order. */
  lemma ParcelKeepsOrder(c1: UsbConfiguration, c2: UsbConfiguration, parcel: Parcel)
    requires c1.interfaces.Some? && c2.interfaces.Some?
    ensures var written := WriteToParcel(c2, WriteToParcel(c1, parcel));
      && CreateFromParcel(Reader(written, |parcel|)) == Ok((c1, Reader(written, |parcel| + 5)))
      && CreateFromParcel(Reader(written, |parcel| + 5)) == Ok((c2, Reader(written, |parcel| + 10)))
  {
    var first := WriteToParcel(c1, parcel);
    var written := WriteToParcel(c2, first);
    var tail := written[|first|..];
    assert written == first + tail;
    ParcelRoundTrip(c1, parcel, tail);
    assert written + [] == written;
    ParcelRoundTrip(c2, first, []);
  }

  /** A configuration decoded from a descriptor always has its interfaces
      set, so it survives a trip through a parcel unchanged, and its power in
      milliamps is still twice the unsigned bMaxPower byte. */
  lemma DecodedConfigurationSurvivesParcel(descriptor: seq<JavaByte>, nameOf: Uint8 -> Option<string>,
                                           interfaceAt: nat -> UsbInterface, parcel: Parcel)
    requires Decode(descriptor, nameOf, interfaceAt).Ok?
    ensures var c := Decode(descriptor, nameOf, interfaceAt).value;
      var written := WriteToParcel(c, parcel);
      && CreateFromParcel(Reader(written, |parcel|)) == Ok((c, Reader(written, |parcel| + 5)))
      && MaxPowerMilliamps(CreateFromParcel(Reader(written, |parcel|)).value.0)
         == 2 * MaskByte(descriptor[INDEX_MAX_POWER])
  {
    var c := Decode(descriptor, nameOf, interfaceAt).value;
    assert InterfaceCount(c).Ok?;
    ParcelRoundTrip(c, parcel, []);
    assert WriteToParcel(c, parcel) + [] == WriteToParcel(c, parcel);
    DecodedFieldRanges(descriptor, nameOf, interfaceAt);
  }
}

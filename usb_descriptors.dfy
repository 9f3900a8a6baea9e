/** The device's USB descriptors (esp32p4/components/usbd/usb_descriptors.c):
    the constant device, qualifier and configuration descriptors, and the
    string-descriptor callback, which fills a static buffer of 16-bit words
    with a String Descriptor as defined in section 9.6.7 of the USB 2.0
    specification: a header word holding bLength (low byte) and
    bDescriptorType = STRING (high byte), then one UTF-16 code unit per
    character. Strings are C strings: bytes, ended by the first NUL. */
module UsbDescriptors {
  import opened Types
  import Transport

  /** A 16-bit word of the descriptor buffer. */
  newtype u16 = x: int | 0 <= x < 0x10000

  const UsbdVid: nat := 0x303a
  const UsbdPid: nat := 0x4020
  /** Capacity of the string buffer, in 16-bit words (header included). */
  const DescStrMax: nat := 32
  const TusbDescDevice: nat := 1
  const TusbDescString: nat := 3
  const TusbDescDeviceQualifier: nat := 6
  /** Language ID of US English, the one language listed by string 0. */
  const LangIdEnglishUs: u16 := 0x0409
  const UsbdJpegEpnumOut: nat := 0x01
  const UsbdJpegEpnumIn: nat := 0x81
  /** The build's configuration: CDC disabled, 64-byte control endpoint. */
  const CfgTudCdc: nat := 0
  const CfgTudEndpoint0Size: nat := 64
  const CfgTudVendor: nat := 1

  /** The bytes of a C string literal (every character below 256). */
  function CStr(s: string): (r: seq<byte>)
    requires forall i :: 0 <= i < |s| ==> s[i] as int < 256
    ensures |r| == |s|
  {
    seq(|s|, i requires 0 <= i < |s| => s[i] as int as byte)
  }

  /** `descriptor_string[index]` for the indices the table defines:
      manufacturer, product, serial number, vendor interface. */
  function DescriptorString(index: nat): (s: seq<byte>)
    requires 1 <= index <= 4
    ensures 1 <= |s| < DescStrMax
    ensures forall i :: 0 <= i < |s| ==> s[i] != 0
  {
    if index == 1 then CStr("Espressif Systems")
    else if index == 2 then CStr("Espressif Device")
    else if index == 3 then CStr("123456")
    else CStr("JPEG Stream")
  }

  /** How many characters of `s` are copied when at most `cap` are taken and
      copying stops at the first NUL (the end of the sequence stands for the
      terminator). */
  function CopyLength(s: seq<byte>, cap: nat): (n: nat)
    ensures n <= cap && n <= |s|
    ensures forall i :: 0 <= i < n ==> s[i] != 0
    ensures n < cap ==> n == |s| || s[n] == 0
    decreases cap
  {
    if cap == 0 || |s| == 0 || s[0] == 0 then 0 else 1 + CopyLength(s[1..], cap - 1)
  }

  /** Copying stops exactly where a NUL, the end of the string or the cap is
      first met. */
  lemma {:induction false} CopyLengthStops(s: seq<byte>, cap: nat, n: nat)
    requires n <= cap && n <= |s|
    requires forall i :: 0 <= i < n ==> s[i] != 0
    requires n == cap || n == |s| || s[n] == 0
    ensures CopyLength(s, cap) == n
    decreases n
  {
    if n > 0 {
      CopyLengthStops(s[1..], cap - 1, n - 1);
    }
  }

  /** The header word for a descriptor carrying `len` code units:
      `(TUSB_DESC_STRING << 8) | (2 * len + 2)`. The length byte is below
      256, so the OR is the sum written here. */
  function Header(len: nat): (h: u16)
    requires len < DescStrMax
    ensures h as int % 256 == 2 * len + 2
    ensures h as int / 256 == TusbDescString
  {
    (TusbDescString * 256 + 2 * len + 2) as u16
  }

  /** The code units for a C string: its characters up to the first NUL, at
      most 31 of them, each zero-extended to 16 bits. */
  function Units(s: seq<byte>): (u: seq<u16>)
    ensures |u| == CopyLength(s, DescStrMax - 1)
  {
    var n := CopyLength(s, DescStrMax - 1);
    seq(n, i requires 0 <= i < n => s[i] as int as u16)
  }

  /** The code units the callback produces for string `index`: the language
      ID for index 0, otherwise the string's characters, all of them, since
      every string in the table is shorter than the cap and has no NUL. */
  function StringUnits(index: nat): (u: seq<u16>)
    requires index <= 4
    ensures 1 <= |u| < DescStrMax
    ensures index > 0 ==>
      |u| == |DescriptorString(index)| &&
      forall i :: 0 <= i < |u| ==> u[i] as int == DescriptorString(index)[i] as int
  {
    if index == 0 then [LangIdEnglishUs]
    else
      var s := DescriptorString(index);
      CopyLengthStops(s, DescStrMax - 1, |s|);
      Units(s)
  }

  /** A descriptor for the given code units: the header word, then the units. */
  function Descriptor(u: seq<u16>): (d: seq<u16>)
    requires |u| < DescStrMax
  {
    [Header(|u|)] + u
  }

  /** What the callback returns for string `index`. */
  function StringDescriptor(index: nat): (d: seq<u16>)
    requires index <= 4
  {
    Descriptor(StringUnits(index))
  }

  /** The host's reading of a string descriptor (section 9.6.7 of USB 2.0):
      the type byte must be STRING and bLength must count exactly the bytes
      given; the result is the code units. */
  function ParseStringDescriptor(d: seq<u16>): (r: Option<seq<u16>>)
    ensures r.Some? <==> |d| >= 1 && d[0] as int / 256 == TusbDescString && d[0] as int % 256 == 2 * |d|
    ensures r.Some? ==> r.value == d[1..]
  {
    if |d| >= 1 && d[0] as int / 256 == TusbDescString && d[0] as int % 256 == 2 * |d| then Some(d[1..]) else None
  }

  /** The host's narrowing of code units back to single-byte characters
      (None when some unit is not a single byte). */
  function Narrow(u: seq<u16>): (r: Option<seq<byte>>)
    ensures r.Some? <==> forall i :: 0 <= i < |u| ==> u[i] < 256
    ensures r.Some? ==> |r.value| == |u| && forall i :: 0 <= i < |u| ==> r.value[i] as int == u[i] as int
    decreases |u|
  {
    if u == [] then Some([])
    else
      match Narrow(u[..|u| - 1])
      case None => None
      case Some(init) =>
        if u[|u| - 1] < 256 then Some(init + [u[|u| - 1] as int as byte]) else None
  }

  /** Every descriptor built from at most 31 units is well formed: the host
      parses it back to exactly those units. */
  lemma ParseDescriptor(u: seq<u16>)
    requires |u| < DescStrMax
    ensures ParseStringDescriptor(Descriptor(u)) == Some(u)
  {
    assert Descriptor(u)[1..] == u;
  }

  /** Narrowing the units of a string gives back the characters copied. */
  lemma NarrowUnits(s: seq<byte>)
    ensures Narrow(Units(s)) == Some(s[..CopyLength(s, DescStrMax - 1)])
  {
    var u := Units(s);
    var n := CopyLength(s, DescStrMax - 1);
    assert forall i :: 0 <= i < |u| ==> u[i] as int == s[i] as int;
    var r := Narrow(u).value;
    assert forall i :: 0 <= i < n ==> r[i] == s[..n][i];
    assert r == s[..n];
  }

  /** The round trip of a C string through a descriptor: the host recovers
      the string up to its first NUL, cut after 31 characters; in particular
      a string of at most 31 characters with no NUL comes back whole. */
  lemma StringRoundTrip(s: seq<byte>)
    ensures var n := CopyLength(s, DescStrMax - 1);
      ParseStringDescriptor(Descriptor(Units(s))) == Some(Units(s)) &&
      Narrow(Units(s)) == Some(s[..n])
    ensures |s| < DescStrMax && (forall i :: 0 <= i < |s| ==> s[i] != 0) ==>
      Narrow(Units(s)) == Some(s)
  {
    ParseDescriptor(Units(s));
    NarrowUnits(s);
    if |s| < DescStrMax && forall i :: 0 <= i < |s| ==> s[i] != 0 {
      CopyLengthStops(s, DescStrMax - 1, |s|);
      assert s[..|s|] == s;
    }
  }

  /** String 0 lists exactly one language, US English, in a 4-byte descriptor. */
  lemma LanguageIdDescriptor()
    ensures ParseStringDescriptor(StringDescriptor(0)) == Some([LangIdEnglishUs])
    ensures StringDescriptor(0) == [0x0304, 0x0409]
  {
    ParseDescriptor([LangIdEnglishUs]);
  }

  /** The static buffer the string callback fills and returns. */
  class StringBuffer {
    const buf: array<u16>

    constructor ()
      ensures fresh(buf) && buf.Length == DescStrMax
    {
      buf := new u16[DescStrMax];
    }

    /** The copy loop: the string's characters, up to the first NUL and at
        most 31 of them, go zero-extended into words 1.. of the buffer. */
    method CopyChars(str: seq<byte>) returns (len: nat)
      requires buf.Length == DescStrMax
      modifies buf
      ensures len == CopyLength(str, DescStrMax - 1)
      ensures buf[1..len + 1] == Units(str)
      ensures buf[0] == old(buf[0])
      ensures forall k :: len + 1 <= k < buf.Length ==> buf[k] == old(buf[k])
    {
      len := 0;
      while len < DescStrMax - 1 && len < |str| && str[len] != 0
        invariant len <= DescStrMax - 1 && len <= |str|
        invariant forall k :: 0 <= k < len ==> str[k] != 0
        invariant forall k :: 1 <= k <= len ==> buf[k] as int == str[k - 1] as int
        invariant buf[0] == old(buf[0])
        invariant forall k :: len + 1 <= k < buf.Length ==> buf[k] == old(buf[k])
      {
        buf[1 + len] := str[len] as int as u16;
        len := len + 1;
      }
      CopyLengthStops(str, DescStrMax - 1, len);
      forall k | 0 <= k < len
        ensures buf[1..len + 1][k] == Units(str)[k]
      {
        assert buf[1 + k] as int == str[k] as int;
      }
    }

    /** `tud_descriptor_string_cb`. The language ID argument is ignored; the
        index is not range-checked by the source, so it must name a table
        entry. Returns the words the host reads (bLength bytes); the rest of
        the buffer keeps what earlier calls left there. */
    method TudDescriptorStringCb(index: nat, langid: u16) returns (desc: seq<u16>)
      requires index <= 4 && buf.Length == DescStrMax
      modifies buf
      ensures desc == StringDescriptor(index)
      ensures 2 <= |desc| <= DescStrMax && buf[..|desc|] == desc
      ensures forall k :: |desc| <= k < buf.Length ==> buf[k] == old(buf[k])
    {
      var len: nat;
      if index == 0 {
        buf[1] := LangIdEnglishUs;
        len := 1;
      } else {
        len := CopyChars(DescriptorString(index));
      }
      buf[0] := Header(len);
      desc := buf[..len + 1];
      assert desc[1..] == buf[1..len + 1];
    }
  }

  /** The device descriptor's fields (section 9.6.1 of USB 2.0). */
  datatype DeviceDescriptor = DeviceDescriptor(
    bLength: nat, bDescriptorType: nat, bcdUsb: nat,
    bDeviceClass: nat, bDeviceSubClass: nat, bDeviceProtocol: nat, bMaxPacketSize0: nat,
    idVendor: nat, idProduct: nat, bcdDevice: nat,
    iManufacturer: nat, iProduct: nat, iSerialNumber: nat, bNumConfigurations: nat)

  /** `descriptor_dev`, which `tud_descriptor_device_cb` returns. */
  function DescriptorDev(): (d: DeviceDescriptor)
    ensures d.bcdUsb == 0x0200 && d.bMaxPacketSize0 == 64 && d.bNumConfigurations == 1
    ensures (d.idVendor, d.idProduct) == (UsbdVid, UsbdPid)
    ensures (d.iManufacturer, d.iProduct, d.iSerialNumber) == (1, 2, 3)
    ensures CfgTudCdc == 0 ==> (d.bDeviceClass, d.bDeviceSubClass, d.bDeviceProtocol) == (0, 0, 0)
  {
    var (cls, sub, proto) := if CfgTudCdc != 0 then (0xEF, 0x02, 0x01) else (0x00, 0x00, 0x00);
    DeviceDescriptor(18, TusbDescDevice, 0x0200, cls, sub, proto, CfgTudEndpoint0Size,
                     UsbdVid, UsbdPid, 0x0100, 1, 2, 3, 1)
  }

  /** A 16-bit field, least significant byte first. */
  function Le16(v: nat): (b: seq<byte>)
    requires v < 0x10000
    ensures |b| == 2 && b[0] as nat + 256 * (b[1] as nat) == v
  {
    [(v % 256) as byte, (v / 256) as byte]
  }

  /** The 18 bytes of a device descriptor on the wire (Table 9-8 of USB 2.0). */
  function DeviceDescriptorBytes(d: DeviceDescriptor): (b: seq<byte>)
    requires d.bLength < 256 && d.bDescriptorType < 256 && d.bcdUsb < 0x10000
    requires d.bDeviceClass < 256 && d.bDeviceSubClass < 256 && d.bDeviceProtocol < 256 && d.bMaxPacketSize0 < 256
    requires d.idVendor < 0x10000 && d.idProduct < 0x10000 && d.bcdDevice < 0x10000
    requires d.iManufacturer < 256 && d.iProduct < 256 && d.iSerialNumber < 256 && d.bNumConfigurations < 256
    ensures |b| == 18
    ensures b[8] as nat + 256 * (b[9] as nat) == d.idVendor && b[10] as nat + 256 * (b[11] as nat) == d.idProduct
  {
    [d.bLength as byte, d.bDescriptorType as byte] + Le16(d.bcdUsb) +
    [d.bDeviceClass as byte, d.bDeviceSubClass as byte, d.bDeviceProtocol as byte, d.bMaxPacketSize0 as byte] +
    Le16(d.idVendor) + Le16(d.idProduct) + Le16(d.bcdDevice) +
    [d.iManufacturer as byte, d.iProduct as byte, d.iSerialNumber as byte, d.bNumConfigurations as byte]
  }

  /** The device descriptor's bLength (`sizeof(descriptor_dev)`) is its
      length on the wire, and its string indices name the manufacturer,
      product and serial strings of the string table. */
  lemma DeviceDescriptorConsistent()
    ensures |DeviceDescriptorBytes(DescriptorDev())| == DescriptorDev().bLength
    ensures DescriptorString(DescriptorDev().iManufacturer) == CStr("Espressif Systems")
    ensures DescriptorString(DescriptorDev().iProduct) == CStr("Espressif Device")
    ensures DescriptorString(DescriptorDev().iSerialNumber) == CStr("123456")
  {
  }

  /** The device qualifier's fields (section 9.6.2 of USB 2.0). */
  datatype QualifierDescriptor = QualifierDescriptor(
    bLength: nat, bDescriptorType: nat, bcdUsb: nat,
    bDeviceClass: nat, bDeviceSubClass: nat, bDeviceProtocol: nat, bMaxPacketSize0: nat,
    bNumConfigurations: nat, bReserved: nat)

  /** `tud_descriptor_device_qualifier_cb` (the build is high-speed). */
  function TudDescriptorDeviceQualifierCb(): (q: QualifierDescriptor)
    ensures q.bLength == 10 && q.bDescriptorType == TusbDescDeviceQualifier
    ensures q.bcdUsb == DescriptorDev().bcdUsb && q.bMaxPacketSize0 == DescriptorDev().bMaxPacketSize0
    ensures q.bNumConfigurations == DescriptorDev().bNumConfigurations
    ensures (q.bDeviceClass, q.bDeviceSubClass, q.bDeviceProtocol) ==
            (DescriptorDev().bDeviceClass, DescriptorDev().bDeviceSubClass, DescriptorDev().bDeviceProtocol)
  {
    var (cls, sub, proto) := if CfgTudCdc != 0 then (0xEF, 0x02, 0x01) else (0x00, 0x00, 0x00);
    QualifierDescriptor(10, TusbDescDeviceQualifier, 0x0200, cls, sub, proto, CfgTudEndpoint0Size, 1, 0)
  }

  /** The vendor interface: interface number, its string index, the bulk
      OUT and IN endpoint addresses and their maximum packet size. */
  datatype VendorInterface = VendorInterface(number: nat, stringIndex: nat, epOut: nat, epIn: nat, epSize: nat)

  /** The arguments of the configuration descriptor's header: configuration
      value, interface count, string index, total length, attributes and
      maximum power in mA; and its one vendor interface. */
  datatype ConfigDescriptor = ConfigDescriptor(
    configValue: nat, interfaceCount: nat, stringIndex: nat, totalLength: nat,
    attributes: nat, powerMa: nat, vendor: VendorInterface)

  /** Lengths of a configuration, an interface and an endpoint descriptor
      (Tables 9-10, 9-12 and 9-13 of USB 2.0). */
  const ConfigDescLen: nat := 9
  const InterfaceDescLen: nat := 9
  const EndpointDescLen: nat := 7

  /** `descriptor_config`. */
  function DescriptorConfig(): (c: ConfigDescriptor)
    ensures c.totalLength == ConfigDescLen + CfgTudVendor * (InterfaceDescLen + 2 * EndpointDescLen)
    ensures c.interfaceCount == CfgTudVendor && c.powerMa == 100
    ensures c.vendor.epOut == UsbdJpegEpnumOut && c.vendor.epIn == UsbdJpegEpnumIn
    ensures c.vendor.stringIndex == 4 && DescriptorString(c.vendor.stringIndex) == CStr("JPEG Stream")
  {
    ConfigDescriptor(1, 1, 0, ConfigDescLen + CfgTudVendor * (InterfaceDescLen + 2 * EndpointDescLen), 0x00, 100,
                     VendorInterface(0, 4, UsbdJpegEpnumOut, UsbdJpegEpnumIn, 512))
  }

  /** `tud_descriptor_configuration_cb`: the one configuration, whatever the
      index asked for: one vendor interface whose bulk OUT endpoint is the
      one the host writes frames to. */
  function TudDescriptorConfigurationCb(index: nat): (c: ConfigDescriptor)
    ensures c == DescriptorConfig() && c.configValue == 1 && c.interfaceCount == CfgTudVendor
    ensures c.totalLength == ConfigDescLen + c.interfaceCount * (InterfaceDescLen + 2 * EndpointDescLen)
    ensures c.vendor.epOut == Transport.EpOut
  {
    DescriptorConfig()
  }

  /** The index argument is ignored. */
  lemma ConfigurationIgnoresIndex(i: nat, j: nat)
    ensures TudDescriptorConfigurationCb(i) == TudDescriptorConfigurationCb(j)
  {
  }

  /** `tud_descriptor_other_speed_configuration_cb`: no configuration for
      the other speed (NULL). */
  function TudDescriptorOtherSpeedConfigurationCb(index: nat): (c: Option<ConfigDescriptor>)
    ensures c.None?
  {
    None
  }

  /** The host opens the device the firmware describes and writes to the
      vendor interface's OUT endpoint. */
  lemma HostMatchesDevice()
    ensures Transport.Vid == DescriptorDev().idVendor && Transport.Pid == DescriptorDev().idProduct
    ensures Transport.EpOut == DescriptorConfig().vendor.epOut
  {
  }
}

/** What the two pipeline-string builders (barcode_scanner/bin/main.py and
    barcode_scanner/canvas.py) share: the JSON video configuration they are
    given, the `gst-launch` source element naming the capture device, and a
    reader for the `name=value` fields of a caps string, used to show that a
    built caps string carries exactly the configured numbers. */
module GstCaps {
  import opened PyStrings

  /** The colour-space converter both builders put after the capture element. */
  const Converter := "ffmpegcolorspace"

  /** The JSON object of the `fromjson` sub-command. */
  datatype VideoConfig = VideoConfig(
    deviceName: string,
    width: int,
    height: int,
    framerateNum: int,
    framerateDenom: int)

  /** The four numbers a caps string carries. */
  datatype Geometry = Geometry(width: int, height: int, framerateNum: int, framerateDenom: int)

  function GeometryOf(cfg: VideoConfig): Geometry {
    Geometry(cfg.width, cfg.height, cfg.framerateNum, cfg.framerateDenom)
  }

  /** `u'{} {}="{}"'.format(VIDEO_SOURCE_PLUGIN, DEVICE_KEY, device_name)`:
      the capture element with its device property. */
  function DeviceString(plugin: string, key: string, deviceName: string): (r: string)
    ensures |r| == |plugin| + |key| + |deviceName| + 4
  {
    plugin + " " + key + "=\"" + deviceName + "\""
  }

  /** Reads the quoted device name back from a capture element built for
      `plugin` and `key`. */
  function DeviceNameOf(element: string, plugin: string, key: string): Option<string>
  {
    var head := plugin + " " + key + "=\"";
    if |element| >= |head| + 1 && element[..|head|] == head && element[|element| - 1] == '"'
    then Some(element[|head|..|element| - 1])
    else None
  }

  /** The capture element names the configured device, whatever characters
      the name holds. */
  lemma DeviceStringRoundTrip(plugin: string, key: string, deviceName: string)
    ensures DeviceNameOf(DeviceString(plugin, key, deviceName), plugin, key) == Some(deviceName)
  {
    var head := plugin + " " + key + "=\"";
    var s := DeviceString(plugin, key, deviceName);
    assert s == head + deviceName + "\"";
    assert s[..|head|] == head;
    assert s[|head|..|s| - 1] == deviceName;
  }

  /* ---------------------------------------------------------------------
     Reading caps fields
     --------------------------------------------------------------------- */

  /** The value of a field `name=value`, when `f` is one. */
  function FieldText(f: string, name: string): Option<string> {
    var head := name + "=";
    if |f| >= |head| && f[..|head|] == head then Some(f[|head|..]) else None
  }

  /** An integer field `name=123`. */
  function FieldInt(f: string, name: string): Option<int> {
    match FieldText(f, name)
    case Some(v) => ParseDecimal(v)
    case None => None
  }

  /** A typed integer field `name=(int)123`. */
  function FieldTypedInt(f: string, name: string): Option<int> {
    match FieldText(f, name)
    case Some(v) =>
      if |v| >= 5 && v[..5] == "(int)" then ParseDecimal(v[5..]) else None
    case None => None
  }

  /** A fraction field `name=N/D`. */
  function FieldFraction(f: string, name: string): Option<(int, int)> {
    match FieldText(f, name)
    case Some(v) =>
      var parts := Split(v, '/');
      if |parts| != 2 then None
      else (match (ParseDecimal(parts[0]), ParseDecimal(parts[1]))
            case (Some(n), Some(d)) => Some((n, d))
            case _ => None)
    case None => None
  }

  /* ---------------------------------------------------------------------
     Facts the round trips are built from
     --------------------------------------------------------------------- */

  /** A rendered number holds none of the caps separators. */
  lemma DecimalHasNo(n: int, c: char)
    requires !IsDigit(c) && c != '-'
    ensures c !in Decimal(n)
  {
  }

  lemma FieldIntOf(name: string, n: int)
    ensures FieldInt(name + "=" + Decimal(n), name) == Some(n)
  {
    var f := name + "=" + Decimal(n);
    assert f[..|name + "="|] == name + "=";
    assert f[|name + "="|..] == Decimal(n);
    DecimalRoundTrip(n);
  }

  lemma FieldTypedIntOf(name: string, v: string)
    ensures FieldTypedInt(name + "=(int)" + v, name) == ParseDecimal(v)
  {
    var f := name + "=(int)" + v;
    assert f == name + "=" + ("(int)" + v);
    assert f[..|name + "="|] == name + "=";
    var t := f[|name + "="|..];
    assert t == "(int)" + v;
    assert t[..5] == "(int)" && t[5..] == v;
  }

  lemma FieldFractionOf(name: string, n: int, d: int)
    ensures FieldFraction(name + "=" + Decimal(n) + "/" + Decimal(d), name) == Some((n, d))
  {
    var f := name + "=" + Decimal(n) + "/" + Decimal(d);
    assert f == name + "=" + (Decimal(n) + "/" + Decimal(d));
    assert f[..|name + "="|] == name + "=";
    var v := f[|name + "="|..];
    assert v == Join([Decimal(n), Decimal(d)], "/");
    DecimalHasNo(n, '/');
    DecimalHasNo(d, '/');
    SplitJoin([Decimal(n), Decimal(d)], '/');
    DecimalRoundTrip(n);
    DecimalRoundTrip(d);
  }
}

/** The source string of the camera canvas (barcode_scanner/canvas.py): the
    capture element, the colour converter and YUV caps whose channel masks
    fix the red, green and blue byte order. */
module Canvas {
  import opened PyStrings
  import opened GstCaps
  import Launcher

  /** The channel masks a caps string declares. */
  datatype ChannelMasks = ChannelMasks(red: int, green: int, blue: int)

  /** The comma-separated pieces of `caps_str` of `source_string`: the media
      type and six fields. */
  function YuvCapsParts(cfg: VideoConfig): seq<string> {
    ["video/x-yuv", "width=" + Decimal(cfg.width), "height=" + Decimal(cfg.height),
     "red_mask=(int)255", "green_mask=(int)65280", "blue_mask=(int)16711680",
     "framerate=" + Decimal(cfg.framerateNum) + "/" + Decimal(cfg.framerateDenom)]
  }

  /** `caps_str` of `source_string`: its pieces joined by commas. */
  function YuvCaps(cfg: VideoConfig): (r: string)
    // the configured width, height and frame rate, and masks that put red in
    // the lowest byte, green in the next and blue in the third
    ensures ParseYuvCaps(r) == Some((GeometryOf(cfg), ChannelMasks(0xFF, 0xFF00, 0xFF0000)))
  {
    YuvCapsSplit(cfg);
    YuvFieldsOf(cfg);
    Join(YuvCapsParts(cfg), ",")
  }

  /** The caps string is the text of the format string, with each number in decimal. */
  lemma YuvCapsText(cfg: VideoConfig)
    ensures YuvCaps(cfg)
      == "video/x-yuv" + "," + "width=" + Decimal(cfg.width) + "," + "height=" + Decimal(cfg.height)
         + "," + "red_mask=(int)255" + "," + "green_mask=(int)65280" + "," + "blue_mask=(int)16711680"
         + "," + "framerate=" + Decimal(cfg.framerateNum) + "/" + Decimal(cfg.framerateDenom)
  {
    var t := "video/x-yuv";
    var w, h := Decimal(cfg.width), Decimal(cfg.height);
    var n, d := Decimal(cfg.framerateNum), Decimal(cfg.framerateDenom);
    var f1, f2, f6 := "width=" + w, "height=" + h, "framerate=" + n + "/" + d;
    var f3, f4, f5 := "red_mask=(int)255", "green_mask=(int)65280", "blue_mask=(int)16711680";
    JoinAppend([t], f1, ",");
    assert [t] + [f1] == [t, f1];
    JoinAppend([t, f1], f2, ",");
    assert [t, f1] + [f2] == [t, f1, f2];
    JoinAppend([t, f1, f2], f3, ",");
    assert [t, f1, f2] + [f3] == [t, f1, f2, f3];
    JoinAppend([t, f1, f2, f3], f4, ",");
    assert [t, f1, f2, f3] + [f4] == [t, f1, f2, f3, f4];
    JoinAppend([t, f1, f2, f3, f4], f5, ",");
    assert [t, f1, f2, f3, f4] + [f5] == [t, f1, f2, f3, f4, f5];
    JoinAppend([t, f1, f2, f3, f4, f5], f6, ",");
    assert [t, f1, f2, f3, f4, f5] + [f6] == YuvCapsParts(cfg);
    var p1 := t + "," + f1;
    assert t + "," + "width=" + w == p1;
    var p2 := p1 + "," + f2;
    assert p1 + "," + "height=" + h == p2;
    var p5 := p2 + "," + f3 + "," + f4 + "," + f5;
    assert p5 + "," + "framerate=" + n + "/" + d == p5 + "," + f6;
  }

  /** Reads the numbers and masks back from a `video/x-yuv` caps string. */
  function ParseYuvCaps(s: string): Option<(Geometry, ChannelMasks)> {
    ParseYuvFields(Split(s, ','))
  }

  /** Reads the numbers and masks back from the comma-separated pieces of a
      caps string. */
  function ParseYuvFields(fs: seq<string>): Option<(Geometry, ChannelMasks)> {
    if |fs| != 7 || fs[0] != "video/x-yuv" then None
    else
      match (FieldInt(fs[1], "width"), FieldInt(fs[2], "height"),
             FieldTypedInt(fs[3], "red_mask"), FieldTypedInt(fs[4], "green_mask"),
             FieldTypedInt(fs[5], "blue_mask"), FieldFraction(fs[6], "framerate"))
      case (Some(w), Some(h), Some(r), Some(g), Some(b), Some((n, d))) =>
        Some((Geometry(w, h, n, d), ChannelMasks(r, g, b)))
      case _ => None
  }

  /** No number holds a comma, so splitting the caps string at commas gives
      back its pieces. */
  lemma YuvCapsSplit(cfg: VideoConfig)
    ensures Split(Join(YuvCapsParts(cfg), ","), ',') == YuvCapsParts(cfg)
  {
    var parts := YuvCapsParts(cfg);
    DecimalHasNo(cfg.width, ',');
    DecimalHasNo(cfg.height, ',');
    DecimalHasNo(cfg.framerateNum, ',');
    DecimalHasNo(cfg.framerateDenom, ',');
    assert forall i :: 0 <= i < |parts| ==> ',' !in parts[i];
    SplitJoin(parts, ',');
  }

  /** Each piece reads back as the number it was built from. */
  lemma YuvFieldsOf(cfg: VideoConfig)
    ensures ParseYuvFields(YuvCapsParts(cfg)) == Some((GeometryOf(cfg), ChannelMasks(0xFF, 0xFF00, 0xFF0000)))
  {
    var parts := YuvCapsParts(cfg);
    assert FieldInt(parts[1], "width") == Some(cfg.width) by {
      assert parts[1] == "width" + "=" + Decimal(cfg.width);
      FieldIntOf("width", cfg.width);
    }
    assert FieldInt(parts[2], "height") == Some(cfg.height) by {
      assert parts[2] == "height" + "=" + Decimal(cfg.height);
      FieldIntOf("height", cfg.height);
    }
    assert FieldFraction(parts[6], "framerate") == Some((cfg.framerateNum, cfg.framerateDenom)) by {
      assert parts[6] == "framerate" + "=" + Decimal(cfg.framerateNum) + "/" + Decimal(cfg.framerateDenom);
      FieldFractionOf("framerate", cfg.framerateNum, cfg.framerateDenom);
    }
    RedMaskOf();
    GreenMaskOf();
    BlueMaskOf();
  }

  /** The red mask field reads back as 0xFF. */
  lemma RedMaskOf()
    ensures FieldTypedInt("red_mask=(int)255", "red_mask") == Some(0xFF)
  {
    assert "red_mask" + "=(int)" + "255" == "red_mask=(int)255";
    FieldTypedIntOf("red_mask", "255");
    assert Decimal(0xFF) == "255" by {
      assert NatDigits(25) == "25";
    }
    MaskDigits(0xFF, "255");
  }

  /** The green mask field reads back as 0xFF00. */
  lemma GreenMaskOf()
    ensures FieldTypedInt("green_mask=(int)65280", "green_mask") == Some(0xFF00)
  {
    assert "green_mask" + "=(int)" + "65280" == "green_mask=(int)65280";
    FieldTypedIntOf("green_mask", "65280");
    GreenMaskDigits();
  }

  /** The green mask's digits are those of 0xFF00. */
  lemma GreenMaskDigits()
    ensures ParseDecimal("65280") == Some(0xFF00)
  {
    assert Decimal(0xFF00) == "65280" by {
      assert NatDigits(65) == "65";
      assert NatDigits(652) == "652";
      assert NatDigits(6528) == "6528";
    }
    MaskDigits(0xFF00, "65280");
  }

  /** The blue mask field reads back as 0xFF0000. */
  lemma BlueMaskOf()
    ensures FieldTypedInt("blue_mask=(int)16711680", "blue_mask") == Some(0xFF0000)
  {
    assert "blue_mask" + "=(int)" + "16711680" == "blue_mask=(int)16711680";
    FieldTypedIntOf("blue_mask", "16711680");
    BlueMaskDigits();
  }

  /** The blue mask's digits are those of 0xFF0000. */
  lemma BlueMaskDigits()
    ensures ParseDecimal("16711680") == Some(0xFF0000)
  {
    assert Decimal(0xFF0000) == "16711680" by {
      assert NatDigits(16) == "16";
      assert NatDigits(167) == "167";
      assert NatDigits(1671) == "1671";
      assert NatDigits(16711) == "16711";
      assert NatDigits(167116) == "167116";
      assert NatDigits(1671168) == "1671168";
    }
    MaskDigits(0xFF0000, "16711680");
  }

  /** Mask digits that `Decimal` renders read back as the mask. */
  lemma MaskDigits(n: int, digits: string)
    requires Decimal(n) == digits
    ensures ParseDecimal(digits) == Some(n)
  {
    DecimalRoundTrip(n);
  }

  /** `source_string` (its literal ` ! ffmpegcolorspace ! ` is written with
      its ` ! ` apart). */
  function SourceString(plugin: string, key: string, cfg: VideoConfig): (r: string)
    // the capture element comes first and the caps last: there is no sink
    ensures |DeviceString(plugin, key, cfg.deviceName)| <= |r|
    ensures r[..|DeviceString(plugin, key, cfg.deviceName)|] == DeviceString(plugin, key, cfg.deviceName)
    ensures |YuvCaps(cfg)| <= |r| && r[|r| - |YuvCaps(cfg)|..] == YuvCaps(cfg)
  {
    var parts := [DeviceString(plugin, key, cfg.deviceName), " ! " + Converter + " ! ", YuvCaps(cfg)];
    JoinEnds(parts, "");
    Join(parts, "")
  }

  /** The source is the capture element, the colour converter and the caps,
      linked by ` ! `, with no sink. */
  lemma SourceStringElements(plugin: string, key: string, cfg: VideoConfig)
    ensures SourceString(plugin, key, cfg)
      == DeviceString(plugin, key, cfg.deviceName) + " ! " + Converter + " ! " + YuvCaps(cfg)
    ensures SourceString(plugin, key, cfg)
      == Join([DeviceString(plugin, key, cfg.deviceName), Converter, YuvCaps(cfg)], " ! ")
  {
    var dev, caps := DeviceString(plugin, key, cfg.deviceName), YuvCaps(cfg);
    Relink3(dev, Converter, caps, " ! ");
    assert dev + (" ! " + Converter + " ! ") + caps == dev + " ! " + Converter + " ! " + caps;
  }

  /** Three elements glued with the separator written around the second are
      the three elements joined by the separator. */
  lemma Relink3(a: string, b: string, c: string, sep: string)
    ensures Join([a, sep + b + sep, c], "") == a + (sep + b + sep) + c
    ensures Join([a, sep + b + sep, c], "") == Join([a, b, c], sep)
  {
    Join3(a, sep + b + sep, c, "");
    assert a + "" + (sep + b + sep) + "" + c == a + (sep + b + sep) + c;
    Join3(a, b, c, sep);
  }

  /** The canvas reads the same capture device through the same colour
      converter as the command built from the same configuration; only the
      caps and the sink differ. */
  lemma SameSourceAsCommand(plugin: string, key: string, cfg: VideoConfig)
    ensures var head := DeviceString(plugin, key, cfg.deviceName) + " ! " + Converter + " ! ";
            SourceString(plugin, key, cfg) == head + YuvCaps(cfg)
            && Launcher.PipelineCommandFromJson(plugin, key, cfg)
               == head + Launcher.RawRgbCaps(cfg) + " ! " + Launcher.AppSink
  {
    SourceStringElements(plugin, key, cfg);
    Launcher.PipelineCommandElements(plugin, key, cfg);
  }
}

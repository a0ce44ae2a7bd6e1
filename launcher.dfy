/** The pipeline commands of the command-line entry point
    (barcode_scanner/bin/main.py): the command built from a JSON video
    configuration and the default `gst-launch` command of the `launch`
    sub-command. `VIDEO_SOURCE_PLUGIN` and `DEVICE_KEY` come from another
    package and are parameters here. */
module Launcher {
  import opened PyStrings
  import opened GstCaps

  /** The comma-separated pieces of `caps_str` of `pipeline_command_from_json`:
      the media type and three fields. */
  function RawRgbCapsParts(cfg: VideoConfig): seq<string> {
    ["video/x-raw-rgb", "width=" + Decimal(cfg.width), "height=" + Decimal(cfg.height),
     "framerate=" + Decimal(cfg.framerateNum) + "/" + Decimal(cfg.framerateDenom)]
  }

  /** `caps_str` of `pipeline_command_from_json`: its pieces joined by commas. */
  function RawRgbCaps(cfg: VideoConfig): (r: string)
    // the caps string carries exactly the configured width, height and frame rate
    ensures ParseRawRgbCaps(r) == Some(GeometryOf(cfg))
  {
    RawRgbCapsSplit(cfg);
    RawRgbFieldsOf(cfg);
    Join(RawRgbCapsParts(cfg), ",")
  }

  /** The caps string is the text of the format string, with each number in decimal. */
  lemma RawRgbCapsText(cfg: VideoConfig)
    ensures RawRgbCaps(cfg)
      == "video/x-raw-rgb" + "," + "width=" + Decimal(cfg.width) + "," + "height=" + Decimal(cfg.height)
         + "," + "framerate=" + Decimal(cfg.framerateNum) + "/" + Decimal(cfg.framerateDenom)
  {
    var t := "video/x-raw-rgb";
    var w, h := Decimal(cfg.width), Decimal(cfg.height);
    var n, d := Decimal(cfg.framerateNum), Decimal(cfg.framerateDenom);
    var f1, f2, f3 := "width=" + w, "height=" + h, "framerate=" + n + "/" + d;
    Join4(t, f1, f2, f3, ",");
    assert t + "," + "width=" + w == t + "," + f1;
    assert t + "," + f1 + "," + "height=" + h == t + "," + f1 + "," + f2;
    assert t + "," + f1 + "," + f2 + "," + "framerate=" + n + "/" + d
        == t + "," + f1 + "," + f2 + "," + f3;
  }

  /** Reads the numbers back from a `video/x-raw-rgb` caps string. */
  function ParseRawRgbCaps(s: string): Option<Geometry> {
    ParseRawRgbFields(Split(s, ','))
  }

  /** Reads the numbers back from the comma-separated pieces of a caps string. */
  function ParseRawRgbFields(fs: seq<string>): Option<Geometry> {
    if |fs| != 4 || fs[0] != "video/x-raw-rgb" then None
    else
      match (FieldInt(fs[1], "width"), FieldInt(fs[2], "height"), FieldFraction(fs[3], "framerate"))
      case (Some(w), Some(h), Some((n, d))) => Some(Geometry(w, h, n, d))
      case _ => None
  }

  /** No number holds a comma, so splitting the caps string at commas
      gives back its pieces. */
  lemma RawRgbCapsSplit(cfg: VideoConfig)
    ensures Split(Join(RawRgbCapsParts(cfg), ","), ',') == RawRgbCapsParts(cfg)
  {
    var parts := RawRgbCapsParts(cfg);
    DecimalHasNo(cfg.width, ',');
    DecimalHasNo(cfg.height, ',');
    DecimalHasNo(cfg.framerateNum, ',');
    DecimalHasNo(cfg.framerateDenom, ',');
    assert ',' !in parts[0] && ',' !in parts[1] && ',' !in parts[2] && ',' !in parts[3];
    SplitJoin(parts, ',');
  }

  /** Each piece reads back as the number it was built from. */
  lemma RawRgbFieldsOf(cfg: VideoConfig)
    ensures ParseRawRgbFields(RawRgbCapsParts(cfg)) == Some(GeometryOf(cfg))
  {
    var parts := RawRgbCapsParts(cfg);
    assert parts[1] == "width" + "=" + Decimal(cfg.width);
    FieldIntOf("width", cfg.width);
    assert parts[2] == "height" + "=" + Decimal(cfg.height);
    FieldIntOf("height", cfg.height);
    assert parts[3] == "framerate" + "=" + Decimal(cfg.framerateNum) + "/" + Decimal(cfg.framerateDenom);
    FieldFractionOf("framerate", cfg.framerateNum, cfg.framerateDenom);
  }

  /** The sink both commands end with: the `app-video` appsink, emitting signals. */
  const AppSink := "appsink name=app-video emit-signals=true"

  /** `pipeline_command_from_json` (its literals ` ! ffmpegcolorspace ! `
      and ` ! appsink name=app-video emit-signals=true` are written with
      their ` ! ` apart). */
  function PipelineCommandFromJson(plugin: string, key: string, cfg: VideoConfig): (r: string)
    // the capture element comes first and the `app-video` sink last
    ensures |DeviceString(plugin, key, cfg.deviceName)| <= |r|
    ensures r[..|DeviceString(plugin, key, cfg.deviceName)|] == DeviceString(plugin, key, cfg.deviceName)
    ensures |" ! " + AppSink| <= |r| && r[|r| - |" ! " + AppSink|..] == " ! " + AppSink
  {
    var parts := [DeviceString(plugin, key, cfg.deviceName), " ! " + Converter + " ! ", RawRgbCaps(cfg),
                  " ! " + AppSink];
    JoinEnds(parts, "");
    Join(parts, "")
  }

  /** The command is the capture element, the colour converter, the caps
      and the `app-video` sink that emits signals, linked by ` ! `. */
  lemma PipelineCommandElements(plugin: string, key: string, cfg: VideoConfig)
    ensures PipelineCommandFromJson(plugin, key, cfg)
      == DeviceString(plugin, key, cfg.deviceName) + " ! " + Converter + " ! " + RawRgbCaps(cfg)
         + " ! " + AppSink
    ensures PipelineCommandFromJson(plugin, key, cfg)
      == Join([DeviceString(plugin, key, cfg.deviceName), Converter, RawRgbCaps(cfg), AppSink], " ! ")
  {
    var dev, caps := DeviceString(plugin, key, cfg.deviceName), RawRgbCaps(cfg);
    Relink(dev, Converter, caps, AppSink, " ! ");
    assert dev + (" ! " + Converter + " ! ") + caps + (" ! " + AppSink)
        == dev + " ! " + Converter + " ! " + caps + " ! " + AppSink;
  }

  /** Four elements glued with the separator written into the second and
      fourth are the four elements joined by the separator. */
  lemma Relink(a: string, b: string, c: string, d: string, sep: string)
    ensures Join([a, sep + b + sep, c, sep + d], "") == a + (sep + b + sep) + c + (sep + d)
    ensures Join([a, sep + b + sep, c, sep + d], "") == Join([a, b, c, d], sep)
  {
    Join4(a, sep + b + sep, c, sep + d, "");
    assert a + "" + (sep + b + sep) + "" + c + "" + (sep + d) == a + (sep + b + sep) + c + (sep + d);
    Join4(a, b, c, d, sep);
  }

  /** `default_pipeline` of `parse_args`, token by token (the caps token is
      written in the source as two adjacent literals, which Python joins). */
  const DefaultPipeline: seq<string> := [
    "autovideosrc name=video-source", "!",
    "ffmpegcolorspace", "!",
    "video/x-raw-rgb,format=(fourcc)I420,framerate=30/1,width=640,height=480", "!",
    "videorate", "!",
    "appsink",
    "name=app-video",
    "emit-signals=true"]

  /** `default_pipeline_command`. */
  function DefaultPipelineCommand(): (r: string)
    // five elements linked by ` ! `, ending in the same sink as a command built from a configuration
    ensures r == Join(["autovideosrc name=video-source", Converter,
                       "video/x-raw-rgb,format=(fourcc)I420,framerate=30/1,width=640,height=480",
                       "videorate", AppSink], " ! ")
  {
    DefaultPipelineText();
    Join(DefaultPipeline, " ")
  }

  /** The default tokens joined by spaces link five elements by ` ! `: the
      automatic video source, the colour converter, 640x480 I420 caps at 30
      frames per second, the rate adapter and the `app-video` sink that
      emits signals. */
  lemma DefaultPipelineText()
    ensures Join(DefaultPipeline, " ")
      == Join(["autovideosrc name=video-source", Converter,
               "video/x-raw-rgb,format=(fourcc)I420,framerate=30/1,width=640,height=480",
               "videorate", AppSink], " ! ")
  {
    MarkedTokens("autovideosrc name=video-source", "ffmpegcolorspace",
      "video/x-raw-rgb,format=(fourcc)I420,framerate=30/1,width=640,height=480",
      "videorate", "appsink", "name=app-video", "emit-signals=true", "!", " ");
    assert " " + "!" + " " == " ! ";
    Join3("appsink", "name=app-video", "emit-signals=true", " ");
    AppSinkTokens();
  }

  /** The last three default tokens, joined by spaces, are the sink. */
  lemma AppSinkTokens()
    ensures "appsink" + " " + "name=app-video" + " " + "emit-signals=true" == AppSink
  {
    assert "appsink" + " " == "appsink ";
    assert "appsink " + "name=app-video" == "appsink name=app-video";
    assert "appsink name=app-video" + " " == "appsink name=app-video ";
  }

  /** A part, then a marker part, then at least one more part, joined by `sep`. */
  lemma MarkerStep(x: string, m: string, rest: seq<string>, sep: string)
    requires |rest| >= 1
    ensures Join([x, m] + rest, sep) == x + (sep + m + sep) + Join(rest, sep)
  {
    JoinCons(m, rest, sep);
    JoinCons(x, [m] + rest, sep);
    assert [x, m] + rest == [x] + ([m] + rest);
    Regroup(x, sep, m, Join(rest, sep));
  }

  lemma Regroup(x: string, sep: string, m: string, j: string)
    ensures x + sep + (m + sep + j) == x + (sep + m + sep) + j
  {
  }

  /** Dropping one marker part turns a `sep` join into a `sep m sep` join. */
  lemma MarkerCons(x: string, m: string, rest: seq<string>, linked: seq<string>, sep: string)
    requires |rest| >= 1 && |linked| >= 1
    requires Join(rest, sep) == Join(linked, sep + m + sep)
    ensures Join([x, m] + rest, sep) == Join([x] + linked, sep + m + sep)
  {
    MarkerStep(x, m, rest, sep);
    JoinCons(x, linked, sep + m + sep);
  }

  /** Tokens joined by `sep` with the marker `m` between the first four are
      the elements joined by `sep m sep`, the last element holding the last
      three tokens. */
  lemma MarkedTokens(a: string, b: string, c: string, d: string, e: string, f: string, g: string,
                     m: string, sep: string)
    ensures Join([a, m, b, m, c, m, d, m, e, f, g], sep)
      == Join([a, b, c, d, Join([e, f, g], sep)], sep + m + sep)
  {
    var link := sep + m + sep;
    var tail := Join([e, f, g], sep);
    var r4, l4 := [e, f, g], [tail];
    var r3, l3 := [d, m] + r4, [d] + l4;
    var r2, l2 := [c, m] + r3, [c] + l3;
    var r1, l1 := [b, m] + r2, [b] + l2;
    MarkerCons(d, m, r4, l4, sep);
    MarkerCons(c, m, r3, l3, sep);
    MarkerCons(b, m, r2, l2, sep);
    MarkerCons(a, m, r1, l1, sep);
    assert [a, m] + r1 == [a, m, b, m, c, m, d, m, e, f, g];
    assert [a] + l1 == [a, b, c, d, tail];
  }
}

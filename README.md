# Barcode scanner: scan control, result fields and pipeline strings

A Dafny model of the scan-control and result-handling logic of the
`barcode_scanner` package. It has four parts.

- **The frame-processing controller** (`scanner.dfy`, module `Scanner`) covers the
  GStreamer-driven `BarcodeScanner` object:
  - the `status` dictionary and its re-entrancy flag `processing_scan`;
  - the comparison `symbols_equal` of two symbol lists by their sorted
    `(type, data)` pairs;
  - the decision to emit `symbols-found`;
  - the bookkeeping of `frame-update` connections done by `__init__`,
    `enable_scan` and `disable_scan`;
  - the nullable pipeline handle driven by `start`, `pause` and `stop`.

  The pure function `Process` states one pass of `process_frame`. The class
  method `ProcessFrame` does the same pass step by step and is proved
  against it.
- **Result-field extraction and merge** (`scanner_app.dfy`, module `ScannerApp`)
  covers the OpenCV-driven window:
  - how one pass of `_scan_proc` turns its detections into `pid_entry`,
    `did_entry` and `bid_entry` values. CODE128 data is copied verbatim. A
    QR payload is cut at `#` and `%` with Python's `find` and slice
    semantics, including `find` returning -1 and negative slice stops;
  - how the `ids` setter merges the result into `_ids` and mirrors it into
    the entry widgets;
  - how the `ids` getter reads the widgets back;
  - the timer slot `scan_proc_id`.
- **Pipeline strings**:
  - `launcher.dfy` (module `Launcher`) holds `pipeline_command_from_json`
    and the default `gst-launch` command of `bin/main.py`;
  - `canvas.dfy` (module `Canvas`) holds `source_string` of `canvas.py`;
  - `gst_caps.dfy` (module `GstCaps`) holds what they share: the capture
    element `PLUGIN KEY="name"` and a reader for caps fields. The reader is
    used to prove that each caps string carries exactly the configured
    numbers.
- **Python string semantics** (`pystrings.dfy`, module `PyStrings`) that all
  of the above rely on:
  - `str.find` for one character;
  - slicing with clamped and negative bounds;
  - `'{:d}'.format` with a reader that inverts it;
  - `sep.join` and `str.split`;
  - the order of Python strings.

A Dafny `string` stands for a Python 2 byte `str`, one character per byte.
The symbol data is `str(symbol.data)`, so slicing it counts bytes: a QR
payload without `%` loses its last byte, which is a whole character only
for single-byte text.

The camera, zbar and GStreamer are abstracted:

- A frame is an opaque token.
- The decoder is a function from frames to symbol records, or to nothing
  when PIL or zbar raises.
- A pipeline is a value that remembers its command and its state.
- `VIDEO_SOURCE_PLUGIN` and `DEVICE_KEY` come from another package and are
  parameters.

The code is the reference throughout:

- `start` raises `ValueError` when no command is available. This is
  `NoPipelineCommand` here.
- `start` raises AttributeError when the parsed pipeline has no element
  named `app-video`. This is `NoAppVideo` here. The parsed pipeline stays
  stored, is never set playing, and its command is not bound.
- No try/except surrounds decoding. A decode that raises is not mapped to
  "no symbols": it leaves `processing_scan` up. Every later call then returns
  at the guard, until `reset` (called by `disable_scan` and `start`)
  replaces the status.
- An exception raised in a `frame-update` handler is reported by GObject's
  signal emission, which goes on with the next handler. After that
  `on_new_buffer` lowers `processing_frame` as usual.
- The connection that `__init__` makes from `frame-update` to
  `process_frame` is permanent. `enable_scan` adds a second connection
  rather than turning scanning on, so every playing pipeline decodes every
  frame, once per connection.

## Model

| member | source | states |
|---|---|---|
| PyStrings.Find | barcode_scanner/barcode_scanner.py:183-184 | `find` gives -1 exactly when the character is absent, otherwise an index holding it with no earlier occurrence |
| PyStrings.FindFirst | barcode_scanner/barcode_scanner.py:183-184 | in `p + c + q` with no `c` in `p`, `find(c)` is `len(p)` |
| PyStrings.SliceBound | barcode_scanner/barcode_scanner.py:186-187 | a slice bound inside the string is kept, and a negative one counts back from the end; the result never passes the end |
| PyStrings.Slice | barcode_scanner/barcode_scanner.py:186 | `s[i:j]` holds as many characters as lie between the normalised start and stop, and none when the stop is not past the start |
| PyStrings.SliceFrom | barcode_scanner/barcode_scanner.py:187 | `s[i:]` is always a tail of `s`, of length `len(s) - i` for a start inside the string |
| PyStrings.SliceAvoids | barcode_scanner/barcode_scanner.py:186 | a slice holds no character that is absent before its stop bound |
| PyStrings.SliceWithin | barcode_scanner/barcode_scanner.py:186-187 | a slice with both bounds inside the string is the plain subsequence |
| PyStrings.SliceToLast | barcode_scanner/barcode_scanner.py:186 | `s[i:-1]` stops one character short of the end, and is empty when nothing lies between |
| PyStrings.SliceFromStart | barcode_scanner/barcode_scanner.py:187 | `s[0:]` is the whole string (what `data[b+1:]` gives when `b` is -1) |
| PyStrings.SliceNegativeStop | barcode_scanner/barcode_scanner.py:186 | a negative stop counts from the end |
| PyStrings.Decimal | barcode_scanner/bin/main.py:50-52 | `{:d}` renders a non-empty text of digits and a sign; it is all digits exactly when the number is non-negative |
| PyStrings.DecimalRoundTrip | barcode_scanner/bin/main.py:50-52 | the rendered text reads back as the same number |
| PyStrings.DecimalInjective | barcode_scanner/bin/main.py:50-52 | distinct numbers render as distinct texts |
| PyStrings.JoinAppend | barcode_scanner/bin/main.py:91 | joining one more part appends the separator and the part |
| PyStrings.Join4 | barcode_scanner/bin/main.py:58-59 | four joined parts are the parts with the separator between each two |
| PyStrings.JoinEnds | barcode_scanner/bin/main.py:58-59 | a join starts with its first part and ends with its last |
| PyStrings.Split | barcode_scanner/bin/main.py:50-52 | not a call of the source: the reader used to show that the caps text carries its numbers. `s.split(c)` gives at least one piece, no piece holds `c`, and joining the pieces with `c` gives `s` back |
| PyStrings.SplitJoin | barcode_scanner/bin/main.py:50-52 | used by the caps reader, not by the source: splitting at a separator that no part holds gives back the parts |
| PyStrings.StrLe | barcode_scanner/scanner.py:99-103 | a prefix comes before the longer string |
| PyStrings.StrLeFirstDifference | barcode_scanner/scanner.py:99-103 | where two strings first differ, that character pair decides the order |
| PyStrings.StrLeTotal | barcode_scanner/scanner.py:99-103 | any two strings are ordered one way or the other |
| PyStrings.StrLeAntisymmetric | barcode_scanner/scanner.py:99-103 | strings ordered both ways are equal |
| PyStrings.StrLeTransitive | barcode_scanner/scanner.py:99-103 | the string order is transitive |
| Scanner.KeyLe | barcode_scanner/scanner.py:99 | the tuple order is reflexive, and a smaller type comes first whatever the data |
| Scanner.KeyLeTotal | barcode_scanner/scanner.py:99 | the `(type, data)` tuple order is total |
| Scanner.KeyLeAntisymmetric | barcode_scanner/scanner.py:99 | keys ordered both ways are equal |
| Scanner.KeyLeTransitive | barcode_scanner/scanner.py:99 | the tuple order is transitive |
| Scanner.Insert | barcode_scanner/scanner.py:102-103 | inserting into a sorted key list keeps it sorted and adds exactly that key |
| Scanner.Sort | barcode_scanner/scanner.py:102-103 | `sorted(..., key=key)` yields a sorted permutation of the keys |
| Scanner.SortedUnique | barcode_scanner/scanner.py:100-103 | two sorted lists holding the same keys are identical |
| Scanner.SymbolsEqual | barcode_scanner/scanner.py:98-104 | `symbols_equal` holds exactly when both lists hold the same `(type, data)` pairs with the same multiplicities, whatever the order and time stamps, and then the lengths agree |
| Scanner.SymbolsEqualSymmetric | barcode_scanner/scanner.py:98-104 | the comparison is symmetric |
| Scanner.SymbolsEqualNeedsSameLength | barcode_scanner/scanner.py:100-104 | lists of different lengths are never equal |
| Scanner.Process | barcode_scanner/scanner.py:85-113 | the guard returns at once with the status unchanged; a decode that raises leaves the flag up and stores nothing; otherwise the pass ends with the flag down and the frame stored, and it emits exactly when the decoded list is non-empty and its pairs differ from the stored list (a missing entry counts as `[]`); an emission stores the new list, and otherwise the stored list stays |
| Scanner.DedupConsecutive | barcode_scanner/scanner.py:106-110 | two consecutive passes that decode the same pairs emit `symbols-found` at most once |
| Scanner.RepeatedPassIdle | barcode_scanner/scanner.py:85-113 | a second call on the same frame with the same decoder answer changes nothing and announces nothing |
| Scanner.Run | barcode_scanner/scanner.py:81-113 | successive calls of `process_frame` give one outcome per call |
| Scanner.BusyRun | barcode_scanner/scanner.py:85-86 | while the flag is up, every call returns at the guard and the status stays as it is |
| Scanner.FailureBlocksLaterPasses | barcode_scanner/scanner.py:85-92 | after a decode raises, the flag stays up and every later call returns at the guard |
| Scanner.ProcessKeepsStoresAnnounced | barcode_scanner/scanner.py:106-110 | the stored symbol list, once present, is never empty |
| Scanner.Without | barcode_scanner/scanner.py:122 | `disconnect` removes exactly the given handler id and changes nothing when the id is not connected |
| Scanner.WithoutIncreasing | barcode_scanner/scanner.py:121-123 | disconnecting keeps the connection list in connection order and removes one entry |
| Scanner.BarcodeScanner.constructor | barcode_scanner/scanner.py:54-74 | binds the default command and the decoder, makes one permanent `frame-update` connection, and has no scan id, no pipeline and no status |
| Scanner.BarcodeScanner.ProcessFrame | barcode_scanner/scanner.py:81-113 | with no status yet the call fails (AttributeError) and changes nothing; otherwise the new status and the outcome are exactly `Process` of the old status, the frame and what the decoder reports |
| Scanner.BarcodeScanner.OnNewBuffer | barcode_scanner/scanner.py:168-177 | one `process_frame` per connection, oldest first; the first does the work of one pass and the later ones return at the guard (after a failure) or announce nothing; the new status is that pass's status with `processing_frame` down |
| Scanner.BarcodeScanner.Reset | barcode_scanner/scanner.py:141-143 | the status becomes exactly the two flags, both false |
| Scanner.BarcodeScanner.EnableScan | barcode_scanner/scanner.py:126-130 | appends a fresh connection and records it in `scan_id`; earlier connections stay |
| Scanner.BarcodeScanner.DisableScan | barcode_scanner/scanner.py:117-124 | ends with no scan id and a reset status; removes exactly the recorded connection, keeps the permanent one, and a second call changes only the status |
| Scanner.BarcodeScanner.Pause | barcode_scanner/scanner.py:132-139 | a present pipeline goes to PAUSED; an absent one stays absent |
| Scanner.BarcodeScanner.Stop | barcode_scanner/scanner.py:189-199 | always ends with no pipeline, whether or not one was present |
| Scanner.BarcodeScanner.Start | barcode_scanner/scanner.py:145-187 | the status is reset in every case; with neither an argument nor a bound command it raises `ValueError` and keeps pipeline and connections; a parsed pipeline without an `app-video` element is stored unplayed and the call raises AttributeError with the bound command unchanged; otherwise a playing pipeline runs the command used, which becomes the bound one, the returned status is the reset one, and a connection, with the next handler id, is added exactly when `enable_scan` is asked |
| ScannerApp.QrDevice | barcode_scanner/barcode_scanner.py:183-186 | the device part is never longer than the payload and never holds a `%` |
| ScannerApp.QrBatch | barcode_scanner/barcode_scanner.py:183-187 | the batch part is always a tail of the payload, and a shorter one exactly when the payload holds a `%` |
| ScannerApp.QrWellFormed | barcode_scanner/barcode_scanner.py:182-187 | a payload `prefix#device%batch` (no delimiter in the prefix, no `%` in the device) yields exactly the device and the batch |
| ScannerApp.QrExample | barcode_scanner/barcode_scanner.py:182-187 | `PREFIX#DEV42%BATCH7` yields `DEV42` and `BATCH7` |
| ScannerApp.QrMissingPercent | barcode_scanner/barcode_scanner.py:183-187 | without `%` the batch is the whole payload and the device part loses the last character (the last byte of the payload) |
| ScannerApp.QrMissingHash | barcode_scanner/barcode_scanner.py:183-187 | without `#` the device part is everything before the first `%` |
| ScannerApp.QrPercentFirst | barcode_scanner/barcode_scanner.py:183-186 | a `%` before the first `#` leaves the device part empty |
| ScannerApp.Apply | barcode_scanner/barcode_scanner.py:180-187 | one detection writes exactly the keys its type sets, with its values, and leaves every other key as it was |
| ScannerApp.PassResult | barcode_scanner/barcode_scanner.py:170-187 | the loop over the pass's detections builds exactly `Fields` of them |
| ScannerApp.Fields | barcode_scanner/barcode_scanner.py:170-187 | a pass writes only the three entry keys |
| ScannerApp.FieldsLastWriter | barcode_scanner/barcode_scanner.py:170-187 | a key holds the value of the last detection in the pass that writes it |
| ScannerApp.FieldsUnset | barcode_scanner/barcode_scanner.py:170-187 | a key that no detection writes (for instance, every detection is of another type) is absent from the result |
| ScannerApp.PassKeepsUnwritten | barcode_scanner/barcode_scanner.py:170-189 | a stored id that the pass does not write keeps its value after the merge |
| ScannerApp.Code128Verbatim | barcode_scanner/barcode_scanner.py:180-187 | the last CODE128 detection of a pass puts its data verbatim into `pid_entry`, whatever came before it and whatever QRCODE or other detections follow it |
| ScannerApp.BarcodeScanner.constructor | barcode_scanner/barcode_scanner.py:64-78 | `_ids` has exactly the three entry keys, each `'0'`; no timer |
| ScannerApp.BarcodeScanner.ScanStart | barcode_scanner/barcode_scanner.py:139 | the timer id is recorded |
| ScannerApp.BarcodeScanner.ScanStop | barcode_scanner/barcode_scanner.py:141-146 | afterwards no timer is recorded, and the capture is released exactly when one was |
| ScannerApp.BarcodeScanner.ScanProc | barcode_scanner/barcode_scanner.py:150-190 | a pass whose `scan_once` or pixbuf calls raise leaves `_ids` and the entries as they were and does not return True; otherwise `_ids` becomes the old ids overwritten by the pass's fields, every entry shows its id, and the pass returns True so the timer stays registered |
| ScannerApp.BarcodeScanner.SetIds | barcode_scanner/barcode_scanner.py:226-230 | overwrites only the keys present in the new dict, keeps the others, and every entry then shows its id |
| ScannerApp.BarcodeScanner.GetIds | barcode_scanner/barcode_scanner.py:219-224 | copies every entry's text into `_ids` and returns it; when every entry shows its stored id, as after the setter, the ids come back unchanged |
| GstCaps.DeviceString | barcode_scanner/bin/main.py:53-54 | the capture element is the plugin, key and name plus four fixed characters |
| GstCaps.DeviceStringRoundTrip | barcode_scanner/bin/main.py:53-54 | the capture element carries the device name verbatim, whatever it holds |
| GstCaps.FieldIntOf | barcode_scanner/bin/main.py:50 | a `name=N` field reads back as `N` |
| GstCaps.FieldTypedIntOf | barcode_scanner/canvas.py:108-109 | a `name=(int)T` field reads as `T` parsed as a decimal |
| GstCaps.FieldFractionOf | barcode_scanner/bin/main.py:51 | a `name=N/D` field reads back as `(N, D)` |
| Launcher.RawRgbCaps | barcode_scanner/bin/main.py:50-52 | the caps string carries exactly the configured width, height and frame rate |
| Launcher.RawRgbCapsText | barcode_scanner/bin/main.py:50-52 | the caps string is the text of the format string, with each number in decimal |
| Launcher.RawRgbCapsSplit | barcode_scanner/bin/main.py:50-52 | splitting the caps string at commas gives back its media type and three fields |
| Launcher.RawRgbFieldsOf | barcode_scanner/bin/main.py:50-52 | each of those pieces reads back as the number it was built from |
| Launcher.PipelineCommandFromJson | barcode_scanner/bin/main.py:37-60 | the command starts with the capture element naming the configured device and ends with ` ! ` and the `app-video` sink |
| Launcher.PipelineCommandElements | barcode_scanner/bin/main.py:58-59 | the command is the capture element, ` ! ffmpegcolorspace ! `, the caps and ` ! appsink name=app-video emit-signals=true`, that is, four elements linked by ` ! ` |
| Launcher.DefaultPipelineCommand | barcode_scanner/bin/main.py:79-91 | the default command is five elements linked by ` ! `, ending in the same `app-video` sink as the command built from a configuration |
| Launcher.DefaultPipelineText | barcode_scanner/bin/main.py:79-91 | the default tokens joined by spaces are those five elements linked by ` ! ` |
| Launcher.MarkedTokens | barcode_scanner/bin/main.py:79-91 | tokens joined by spaces, with a `!` token between elements, are the elements joined by ` ! ` |
| Canvas.YuvCaps | barcode_scanner/canvas.py:107-111 | the caps string carries exactly the configured geometry and the masks 0xFF, 0xFF00, 0xFF0000 (red in the lowest byte, then green, then blue) |
| Canvas.YuvCapsText | barcode_scanner/canvas.py:107-111 | the caps string is the text of the format string, with each number in decimal |
| Canvas.YuvCapsSplit | barcode_scanner/canvas.py:107-111 | splitting the caps string at commas gives back its media type and six fields |
| Canvas.YuvFieldsOf | barcode_scanner/canvas.py:107-111 | each of those pieces reads back as the number or mask it was built from |
| Canvas.RedMaskOf | barcode_scanner/canvas.py:108 | the red mask field reads as 0xFF |
| Canvas.GreenMaskOf | barcode_scanner/canvas.py:108 | the green mask field reads as 0xFF00 |
| Canvas.BlueMaskOf | barcode_scanner/canvas.py:109 | the blue mask field reads as 0xFF0000 |
| Canvas.SourceString | barcode_scanner/canvas.py:95-117 | the source starts with the capture element naming the configured device and ends with the caps: there is no sink |
| Canvas.SourceStringElements | barcode_scanner/canvas.py:117 | the source is the capture element, ` ! ffmpegcolorspace ! ` and the caps, three elements linked by ` ! ` with no sink |
| Canvas.SameSourceAsCommand | barcode_scanner/canvas.py:112-117 | the canvas source and the command built from the same configuration share the capture element and converter; they differ only in the caps and the sink |

## Left out

- The zbar decoder, PIL and OpenCV conversions and frame reshaping are foreign libraries. The decoder is a function from opaque frames to symbol records, or to nothing when one of those calls raises.
- The frames of the OpenCV window are not modelled either: a pass of `_scan_proc` receives its `(type, data)` pairs as a parameter, or None when `scan_once` or the preview pixbuf calls raise. A raise in the GTK calls inside the loop (the status icon and its reset timer) is not modelled.
- `datetime.utcnow()` is a clock. The time stamp is part of each record the decoder function returns, and the comparison ignores it.
- GStreamer itself is left out: `parse_launch`, bus handling, the appsink buffer and its caps are library code, and a pipeline is a value with a command and a state. A raise at scanner.py:163 is not modelled: `unicode()` of a byte command holding non-ASCII bytes, or a `parse_launch` failure. Either would leave the old pipeline stopped, no pipeline stored and the status reset. Whether the parsed pipeline has an element named `app-video` is a parameter of the controller (`hasAppVideo`), not derived from the command text.
- `Scanner.BarcodeScanner.OnNewBuffer` requires a playing pipeline, because buffers arrive only while the pipeline plays. It assumes a decoder that answers the same frame the same way.
- Concurrency is left out. The model is single-threaded: calls do not interleave. A `processing_scan` flag left up by a failed decode is modelled.
- Scanner.BarcodeScanner.ProcessFrame: a `symbols-found` handler that calls back into the controller during the emission is not modelled. The plot handler `on_symbols_found` of gtk_matplotlib.py does this: it calls `disable_scan`, whose `reset` replaces the status. `process_frame` then writes `symbols`, `np_img` and the lowered flag into the new dictionary, so the status after that call is not the reset one. The model treats the emission as having no effect on the controller.
- `start` returns the live status dictionary, so later changes are visible through it. The model returns a copy of the status value and does not capture this aliasing.
- Handler ids are concrete numbers, 1 for the constructor's connection and then counting up. GObject's own id values are not modelled.
- GTK is left out: windows, pixbufs, status icons, the 1-second icon reset timer, `quit`, `on_scan_toggle_toggled` and `destroy` are user-interface code. Entry widgets are represented by their text, and their initial text is a constructor parameter because it comes from the window description file.
- The file-descriptor redirection (`os.dup`/`dup2`) in `scan_start`, `scan_stop` and `dump_data`, and the JSON printing, are operating-system I/O. `ScanStart` records only the timer id.
- ScannerApp.BarcodeScanner.ScanStop: the final `os.dup2(self.oldstdout_fno, 1)` raises AttributeError when `scan_start` never ran (as when `quit` runs without a scan). This raise is not modelled; the timer and capture clauses hold either way, since no timer was recorded then.
- `ScannerApp.BarcodeScanner.ScanStart`: opening the capture device and configuring zbar are not modelled.
- `__dealloc__` only calls `stop`, which is modelled.
- plugin.py, argparse and the sub-command dispatch of bin/main.py, device listing, io_redirect.py, gtk_matplotlib.py, pavement.py and the `BarcodeCanvas` class are not part of this model.
- Logging calls are left out.
- Launcher.PipelineCommandFromJson: the configuration's numbers are integers here. A JSON object missing one of the keys (KeyError), or a value that `{:d}` refuses, such as a float like `640.0` or a string (ValueError), is not modelled.
- Canvas.SourceString: the same two error paths of the JSON configuration (KeyError, ValueError) are not modelled.
- `Launcher.PipelineCommandFromJson` and `Canvas.SourceString` write their ` ! ` literals apart from the element names. `Launcher.RawRgbCaps` and `Canvas.YuvCaps` are the comma-join of their pieces, and `RawRgbCapsText` and `YuvCapsText` prove that this is the text of the format strings.

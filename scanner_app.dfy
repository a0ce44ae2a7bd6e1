/** Result-field extraction and the persistent id map of the OpenCV-driven
    scanner window (barcode_scanner/barcode_scanner.py): how one pass's
    detections become `pid_entry`, `did_entry` and `bid_entry` values, how
    they are merged into `_ids` and mirrored into the entry widgets, and the
    bookkeeping of the polling timer. The camera, zbar and GTK are not
    modelled: a pass's detections arrive as a parameter and each entry
    widget is represented by its text. */
module ScannerApp {
  import opened PyStrings

  const PidEntry := "pid_entry"
  const DidEntry := "did_entry"
  const BidEntry := "bid_entry"

  /** `entry_list`, in its order. */
  const EntryList: seq<string> := [PidEntry, DidEntry, BidEntry]

  const EntryKeys: set<string> := {PidEntry, DidEntry, BidEntry}

  /** One `(symbol.type, symbol.data)` pair from `scan_once`, after `str()`. */
  datatype Detection = Detection(kind: string, data: string)

  /* ---------------------------------------------------------------------
     The QR payload rule
     --------------------------------------------------------------------- */

  /** `data[d_index + 1:b_index]` with `d_index = data.find('#')` and
      `b_index = data.find('%')`. */
  function QrDevice(data: string): (r: string)
    ensures |r| <= |data|
    // the device part never holds a `%`, whatever the payload
    ensures '%' !in r
  {
    var a, b := Find(data, '#') + 1, Find(data, '%');
    assert '%' !in data[..SliceBound(b, |data|)] by {
      if b == -1 { assert forall k :: 0 <= k < SliceBound(b, |data|) ==> data[..SliceBound(b, |data|)][k] in data; }
    }
    SliceAvoids(data, a, b, '%');
    Slice(data, a, b)
  }

  /** `data[b_index + 1:]`. */
  function QrBatch(data: string): (r: string)
    // the batch part is always a tail of the payload, a proper one exactly when there is a `%`
    ensures |r| <= |data| && r == data[|data| - |r|..]
    ensures |r| < |data| <==> '%' in data
  {
    SliceFrom(data, Find(data, '%') + 1)
  }

  /** A payload `prefix#device%batch`, with no delimiter in the prefix and no
      `%` in the device part, gives back its device and batch parts. */
  lemma QrWellFormed(prefix: string, device: string, batch: string)
    requires '#' !in prefix && '%' !in prefix && '%' !in device
    ensures var data := prefix + "#" + device + "%" + batch;
            QrDevice(data) == device && QrBatch(data) == batch
  {
    var data := prefix + "#" + device + "%" + batch;
    var head := prefix + "#" + device;
    assert Find(data, '#') == |prefix| by {
      assert data == prefix + ['#'] + (device + "%" + batch);
      FindFirst(prefix, '#', device + "%" + batch);
    }
    assert Find(data, '%') == |head| by {
      assert '%' !in head;
      assert data == head + ['%'] + batch;
      FindFirst(head, '%', batch);
    }
    assert QrDevice(data) == device by {
      SliceWithin(data, |prefix| + 1, |head|);
      assert data[|prefix| + 1..|head|] == device;
    }
    assert QrBatch(data) == batch by {
      SliceWithin(data, |head| + 1, |data|);
      assert data[|head| + 1..] == batch;
    }
  }

  /** The example payload of the QR rule. */
  lemma QrExample()
    ensures QrDevice("PREFIX#DEV42%BATCH7") == "DEV42"
    ensures QrBatch("PREFIX#DEV42%BATCH7") == "BATCH7"
  {
    assert "PREFIX#DEV42%BATCH7" == "PREFIX" + "#" + "DEV42" + "%" + "BATCH7";
    QrWellFormed("PREFIX", "DEV42", "BATCH7");
  }

  /** Without a `%`, `find` gives -1: the device part stops one character
      short of the end (`[...:-1]`) and the batch is the whole payload. */
  lemma QrMissingPercent(data: string)
    requires '%' !in data
    ensures QrBatch(data) == data
    ensures var d := Find(data, '#');
            QrDevice(data) == if d + 1 < |data| - 1 then data[d + 1..|data| - 1] else ""
  {
    SliceFromStart(data);
    SliceToLast(data, Find(data, '#') + 1);
  }

  /** Without a `#`, the device part is everything before the first `%`. */
  lemma QrMissingHash(data: string)
    requires '#' !in data && '%' in data
    ensures QrDevice(data) == data[..Find(data, '%')]
    ensures QrBatch(data) == data[Find(data, '%') + 1..]
  {
  }

  /** A `%` before the first `#` leaves the device part empty. */
  lemma QrPercentFirst(data: string)
    requires '#' in data && '%' in data && Find(data, '%') < Find(data, '#')
    ensures QrDevice(data) == ""
  {
  }

  /* ---------------------------------------------------------------------
     One pass of _scan_proc over its detections
     --------------------------------------------------------------------- */

  /** Whether a detection writes the key `k` of `result`. */
  predicate Sets(d: Detection, k: string) {
    || (d.kind == "CODE128" && k == PidEntry)
    || (d.kind == "QRCODE" && (k == DidEntry || k == BidEntry))
  }

  /** The value a detection writes under `k`. */
  function ValueFor(d: Detection, k: string): string
    requires Sets(d, k)
  {
    if k == PidEntry then d.data
    else if k == DidEntry then QrDevice(d.data)
    else QrBatch(d.data)
  }

  /** The effect of one detection on `result`: CODE128 data goes to
      `pid_entry` verbatim, a QR payload is split into `did_entry` and
      `bid_entry`, and any other type changes nothing. */
  function Apply(result: map<string, string>, d: Detection): (r: map<string, string>)
    // the keys the detection writes hold its values; every other key is as it was
    ensures forall k :: k in r <==> k in result || Sets(d, k)
    ensures forall k :: k in r && Sets(d, k) ==> r[k] == ValueFor(d, k)
    ensures forall k :: k in r && !Sets(d, k) ==> r[k] == result[k]
  {
    if d.kind == "CODE128" then result[PidEntry := d.data]
    else if d.kind == "QRCODE" then result[DidEntry := QrDevice(d.data)][BidEntry := QrBatch(d.data)]
    else result
  }

  /** The `result` dictionary after the loop over `output`. */
  function Fields(output: seq<Detection>): (r: map<string, string>)
    ensures r.Keys <= EntryKeys
  {
    if |output| == 0 then map[]
    else Apply(Fields(output[..|output| - 1]), output[|output| - 1])
  }

  /** A key is written by the last detection of the pass that writes it. */
  lemma {:induction false} FieldsLastWriter(output: seq<Detection>, k: string, i: nat)
    requires i < |output| && Sets(output[i], k)
    requires forall j :: i < j < |output| ==> !Sets(output[j], k)
    ensures k in Fields(output) && Fields(output)[k] == ValueFor(output[i], k)
    decreases |output|
  {
    var n := |output| - 1;
    if i < n {
      var front := output[..n];
      assert front[i] == output[i];
      assert forall j :: i < j < |front| ==> front[j] == output[j];
      FieldsLastWriter(front, k, i);
      assert !Sets(output[n], k);
    }
  }

  /** A key that no detection writes is absent from the result. */
  lemma {:induction false} FieldsUnset(output: seq<Detection>, k: string)
    requires forall j :: 0 <= j < |output| ==> !Sets(output[j], k)
    ensures k !in Fields(output)
    decreases |output|
  {
    if |output| > 0 {
      var front := output[..|output| - 1];
      assert forall j :: 0 <= j < |front| ==> front[j] == output[j];
      FieldsUnset(front, k);
    }
  }

  /** Merging a pass into the stored ids: a key the pass does not write keeps
      its earlier value. */
  lemma PassKeepsUnwritten(prev: map<string, string>, output: seq<Detection>, k: string)
    requires k in prev
    requires forall j :: 0 <= j < |output| ==> !Sets(output[j], k)
    ensures k in prev + Fields(output) && (prev + Fields(output))[k] == prev[k]
  {
    FieldsUnset(output, k);
  }

  /** A CODE128 detection puts its data verbatim into `pid_entry` when no
      later detection of the pass is a CODE128 one; later QRCODE or other
      detections leave it alone. */
  lemma Code128Verbatim(before: seq<Detection>, data: string, after: seq<Detection>)
    requires forall j :: 0 <= j < |after| ==> after[j].kind != "CODE128"
    ensures var out := before + [Detection("CODE128", data)] + after;
            PidEntry in Fields(out) && Fields(out)[PidEntry] == data
  {
    var out := before + [Detection("CODE128", data)] + after;
    assert forall j :: |before| < j < |out| ==> out[j] == after[j - |before| - 1];
    FieldsLastWriter(out, PidEntry, |before|);
  }

  /** The loop of `_scan_proc` over the pass's detections, building `result`. */
  method PassResult(output: seq<Detection>) returns (result: map<string, string>)
    ensures result == Fields(output)
  {
    result := map[];
    var i := 0;
    while i < |output|
      invariant 0 <= i <= |output|
      invariant result == Fields(output[..i])
    {
      var d, prev := output[i], result;
      if d.kind == "CODE128" {
        result := result[PidEntry := d.data];
      } else if d.kind == "QRCODE" {
        var dIndex := Find(d.data, '#');
        var bIndex := Find(d.data, '%');
        result := result[DidEntry := Slice(d.data, dIndex + 1, bIndex)];
        result := result[BidEntry := SliceFrom(d.data, bIndex + 1)];
      }
      assert result == Apply(prev, d);
      assert output[..i + 1][..i] == output[..i];
      i := i + 1;
    }
    assert output[..|output|] == output;
  }

  /* ---------------------------------------------------------------------
     The window object
     --------------------------------------------------------------------- */

  class BarcodeScanner {
    /** `_ids`. */
    var ids: map<string, string>
    /** The text shown by each entry widget, by entry name. */
    var entries: map<string, string>
    /** `scan_proc_id`: the polling timer, while scanning. */
    var scanProcId: Option<nat>

    ghost predicate Valid()
      reads this
    {
      entries.Keys == EntryKeys && EntryKeys <= ids.Keys
    }

    /** The id bookkeeping of `__init__`: the three entries, whatever text
        the window description gives them, and `_ids` with each entry name
        mapped to `'0'`; no timer yet. */
    constructor (initialText: map<string, string>)
      requires initialText.Keys == EntryKeys
      ensures Valid()
      ensures ids == map k | k in EntryKeys :: "0"
      ensures entries == initialText && scanProcId == None
    {
      var initial: map<string, string> := map[];
      for i := 0 to |EntryList|
        invariant initial == map k | k in EntryList[..i] :: "0"
      {
        initial := initial[EntryList[i] := "0"];
      }
      assert EntryList[..|EntryList|] == EntryList;
      ids := initial;
      entries := initialText;
      scanProcId := None;
    }

    /** `scan_start`'s timer registration: `_scan_proc` will run every 150 ms. */
    method ScanStart(timer: nat)
      modifies this`scanProcId
      ensures scanProcId == Some(timer)
    {
      scanProcId := Some(timer);
    }

    /** `scan_stop`: removes the timer and releases the capture when a scan
        is running; afterwards no timer is registered. */
    method ScanStop() returns (released: bool)
      modifies this`scanProcId
      ensures scanProcId == None
      ensures released == old(scanProcId).Some?
    {
      released := false;
      if scanProcId.Some? {
        released := true;
        scanProcId := None;
      }
    }

    /** `_scan_proc`: `output` is what `scan_once` returns, or None when
        `scan_once` or the preview pixbuf calls raise. A pass that raises
        ends before the loop: `_ids` and the entries stay as they were and
        the callback does not return True, so GLib drops the timer. A pass
        that gets its detections builds `result` from them, stores it
        through the `ids` setter and keeps the timer alive. */
    method ScanProc(output: Option<seq<Detection>>) returns (keepGoing: bool)
      requires Valid()
      modifies this`ids, this`entries
      ensures Valid()
      ensures keepGoing <==> output.Some?
      ensures output.None? ==> ids == old(ids) && entries == old(entries)
      ensures output.Some? ==> ids == old(ids) + Fields(output.value)
      ensures output.Some? ==> entries == map k | k in EntryKeys :: ids[k]
    {
      if output.None? {
        return false;
      }
      var result := PassResult(output.value);
      SetIds(result);
      keepGoing := true;
    }

    /** The `ids` setter: `_ids.update(id_dict)`, then every entry shows its
        value from `_ids`. */
    method SetIds(idDict: map<string, string>)
      requires Valid()
      modifies this`ids, this`entries
      ensures Valid()
      ensures ids == old(ids) + idDict
      ensures entries == map k | k in EntryKeys :: ids[k]
    {
      ids := ids + idDict;
      var todo := entries.Keys;
      while todo != {}
        invariant todo <= entries.Keys == EntryKeys
        invariant ids == old(ids) + idDict && EntryKeys <= ids.Keys
        invariant forall k :: k in entries && k !in todo ==> entries[k] == ids[k]
        decreases todo
      {
        var k :| k in todo;
        entries := entries[k := ids[k]];
        todo := todo - {k};
      }
    }

    /** The `ids` getter: copies every entry's text into `_ids` and returns
        it. Read right after the setter, it gives back what was stored. */
    method GetIds() returns (r: map<string, string>)
      requires Valid()
      modifies this`ids
      ensures Valid()
      ensures ids == old(ids) + entries && r == ids
      ensures (forall k :: k in entries ==> entries[k] == old(ids)[k]) ==> r == old(ids)
    {
      var todo := entries.Keys;
      ghost var start := ids;
      while todo != {}
        invariant todo <= entries.Keys
        invariant ids.Keys == start.Keys
        invariant forall k :: k in ids ==> ids[k] == if k in entries && k !in todo then entries[k] else start[k]
        decreases todo
      {
        var k :| k in todo;
        ids := ids[k := entries[k]];
        todo := todo - {k};
      }
      r := ids;
    }
  }
}

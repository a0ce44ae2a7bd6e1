/** The frame-processing controller of the GStreamer-driven scanner
    (barcode_scanner/scanner.py): the `status` dictionary with its
    re-entrancy flag, the comparison of two symbol lists by their sorted
    `(type, data)` pairs, the `symbols-found` decision, and the small state
    machine formed by `reset`, `enable_scan`, `disable_scan`, `start`,
    `pause` and `stop`.

    The camera, GStreamer and zbar are not modelled: a frame is an opaque
    token, the decoder is a function from frames to symbol records (or to
    nothing, when PIL or zbar raises), and the
    pipeline is a nullable handle that remembers its command and state. */
module Scanner {
  import opened PyStrings

  /** A video frame, opaque to the controller. */
  datatype Frame = Frame(id: nat)

  /** One symbol record of `process_frame`: the zbar type name, the decoded
      data and the UTC time stamp given to it. */
  datatype Symbol = Symbol(kind: string, data: string, timestamp: string)

  /** PIL and zbar run over the grey-scale form of a frame, with the clock
      that stamps each record; `None` when one of those calls raises. */
  type Decoder = Frame -> Option<seq<Symbol>>

  /** The `(type, data)` pair by which records are sorted and compared. */
  type Key = (string, string)

  function KeyOf(s: Symbol): Key {
    (s.kind, s.data)
  }

  function Keys(a: seq<Symbol>): seq<Key> {
    seq(|a|, i requires 0 <= i < |a| => KeyOf(a[i]))
  }

  /* ---------------------------------------------------------------------
     Python's order on (type, data) and sorted()
     --------------------------------------------------------------------- */

  /** `x <= y` for two Python tuples `(type, data)`. */
  predicate KeyLe(x: Key, y: Key)
    ensures x == y ==> KeyLe(x, y)
    // a smaller type comes first, whatever the data
    ensures StrLe(x.0, y.0) && !StrLe(y.0, x.0) ==> KeyLe(x, y)
  {
    if x.0 != y.0 then StrLe(x.0, y.0) else StrLe(x.1, y.1)
  }

  lemma KeyLeTotal(x: Key, y: Key)
    ensures KeyLe(x, y) || KeyLe(y, x)
  {
    StrLeTotal(x.0, y.0);
    StrLeTotal(x.1, y.1);
  }

  lemma KeyLeAntisymmetric(x: Key, y: Key)
    requires KeyLe(x, y) && KeyLe(y, x)
    ensures x == y
  {
    if x.0 != y.0 {
      StrLeAntisymmetric(x.0, y.0);
    } else {
      StrLeAntisymmetric(x.1, y.1);
    }
  }

  lemma KeyLeTransitive(x: Key, y: Key, z: Key)
    requires KeyLe(x, y) && KeyLe(y, z)
    ensures KeyLe(x, z)
  {
    if x.0 == y.0 && y.0 == z.0 {
      StrLeTransitive(x.1, y.1, z.1);
    } else if x.0 == y.0 {
      assert KeyLe(x, z);
    } else if y.0 == z.0 {
      assert KeyLe(x, z);
    } else if x.0 == z.0 {
      StrLeAntisymmetric(x.0, y.0);
    } else {
      StrLeTransitive(x.0, y.0, z.0);
    }
  }

  ghost predicate Sorted(s: seq<Key>) {
    forall i, j :: 0 <= i < j < |s| ==> KeyLe(s[i], s[j])
  }

  function Insert(k: Key, s: seq<Key>): (r: seq<Key>)
    requires Sorted(s)
    ensures Sorted(r)
    ensures multiset(r) == multiset(s) + multiset{k}
  {
    if |s| == 0 then [k]
    else if KeyLe(k, s[0]) then
      assert forall j :: 0 <= j < |s| ==> KeyLe(k, s[j]) by {
        forall j | 0 <= j < |s| ensures KeyLe(k, s[j]) {
          if j > 0 { KeyLeTransitive(k, s[0], s[j]); }
        }
      }
      [k] + s
    else
      KeyLeTotal(k, s[0]);
      var t := Insert(k, s[1..]);
      assert s == [s[0]] + s[1..];
      assert forall j :: 0 <= j < |t| ==> KeyLe(s[0], t[j]) by {
        forall j | 0 <= j < |t| ensures KeyLe(s[0], t[j]) {
          assert t[j] in multiset(t);
          assert t[j] == k || t[j] in multiset(s[1..]);
        }
      }
      [s[0]] + t
  }

  /** `sorted` on the keys. Sorting the records by key and then taking their
      keys gives the same sequence as sorting the keys, since records with
      equal keys contribute equal keys whichever order they keep. */
  function Sort(s: seq<Key>): (r: seq<Key>)
    ensures Sorted(r)
    ensures multiset(r) == multiset(s)
    ensures |r| == |s|
  {
    if |s| == 0 then []
    else
      assert s == [s[0]] + s[1..];
      Insert(s[0], Sort(s[1..]))
  }

  /** Two sorted sequences holding the same keys start with the same key. */
  lemma SortedSameFirst(s: seq<Key>, t: seq<Key>)
    requires Sorted(s) && Sorted(t)
    requires multiset(s) == multiset(t)
    requires |s| > 0
    ensures |t| > 0 && s[0] == t[0]
  {
    assert s[0] in multiset(t);
    var j :| 0 <= j < |t| && t[j] == s[0];
    assert t[0] in multiset(s);
    var i :| 0 <= i < |s| && s[i] == t[0];
    KeyLeTotal(s[0], t[0]);
    assert KeyLe(t[0], s[0]) by { if j > 0 { assert KeyLe(t[0], t[j]); } }
    assert KeyLe(s[0], t[0]) by { if i > 0 { assert KeyLe(s[0], s[i]); } }
    KeyLeAntisymmetric(s[0], t[0]);
  }

  lemma TailMultiset(s: seq<Key>)
    requires |s| > 0
    ensures multiset(s[1..]) == multiset(s) - multiset{s[0]}
  {
    assert s == [s[0]] + s[1..];
  }

  /** Two sorted sequences holding the same keys are the same sequence. */
  lemma {:induction false} SortedUnique(s: seq<Key>, t: seq<Key>)
    requires Sorted(s) && Sorted(t)
    requires multiset(s) == multiset(t)
    ensures s == t
  {
    if |s| > 0 {
      SortedSameFirst(s, t);
      TailMultiset(s);
      TailMultiset(t);
      assert Sorted(s[1..]) && Sorted(t[1..]);
      SortedUnique(s[1..], t[1..]);
      assert s == [s[0]] + s[1..] && t == [t[0]] + t[1..];
    } else {
      assert |multiset(t)| == 0;
    }
  }

  /* ---------------------------------------------------------------------
     symbols_equal
     --------------------------------------------------------------------- */

  /** `symbols_equal(a, b)`: equal lengths, and the `(type, data)` pairs of
      both lists, each sorted, agree position by position. Its meaning: the
      two lists hold the same `(type, data)` pairs, each as many times, in
      any order and whatever their time stamps. */
  function SymbolsEqual(a: seq<Symbol>, b: seq<Symbol>): (r: bool)
    ensures r <==> multiset(Keys(a)) == multiset(Keys(b))
    ensures r ==> |a| == |b|
  {
    var sa, sb := Sort(Keys(a)), Sort(Keys(b));
    var r := |a| == |b| && forall i :: 0 <= i < |a| ==> sa[i] == sb[i];
    assert r ==> sa == sb;
    assert multiset(Keys(a)) == multiset(Keys(b)) ==> sa == sb by {
      if multiset(Keys(a)) == multiset(Keys(b)) {
        SortedUnique(sa, sb);
      }
    }
    r
  }

  /** The comparison does not depend on the order of its arguments. */
  lemma SymbolsEqualSymmetric(a: seq<Symbol>, b: seq<Symbol>)
    ensures SymbolsEqual(a, b) == SymbolsEqual(b, a)
  {
  }

  /** Lists of different lengths are never equal, whatever they hold. */
  lemma SymbolsEqualNeedsSameLength(a: seq<Symbol>, b: seq<Symbol>)
    requires |a| != |b|
    ensures !SymbolsEqual(a, b)
  {
  }

  /* ---------------------------------------------------------------------
     The status dictionary and one pass of process_frame
     --------------------------------------------------------------------- */

  /** `self.status`: the two flags that `reset` creates, and the two keys
      (`symbols`, `np_img`) that `process_frame` adds; `None` is a missing key. */
  datatype Status = Status(
    processingFrame: bool,
    processingScan: bool,
    symbols: Option<seq<Symbol>>,
    npImg: Option<Frame>)

  /** What `reset` stores. */
  const ResetStatus := Status(false, false, None, None)

  /** `status.get('symbols', [])`. */
  function StoredSymbols(st: Status): seq<Symbol> {
    match st.symbols
    case Some(s) => s
    case None => []
  }

  /** What a call of `process_frame` did. */
  datatype FrameOutcome =
    | Busy                                   // the guard fired: returned at once
    | Scanned(found: Option<seq<Symbol>>)    // decoded; `found` is what `symbols-found` carried, if emitted
    | Failed                                 // PIL or zbar raised after the flag was raised
    | NoStatus                               // `self.status` did not exist yet (AttributeError)

  /** Whether a pass that decoded `detected` emits `symbols-found`. */
  predicate Announces(st: Status, detected: seq<Symbol>) {
    |detected| > 0 && !SymbolsEqual(detected, StoredSymbols(st))
  }

  /** One call of `process_frame` on an existing `status`, given what the
      decoder reports for the frame: the new status and what happened.
      Nothing restores the flag when decoding raises. */
  function Process(st: Status, frame: Frame, decoded: Option<seq<Symbol>>): (r: (Status, FrameOutcome))
    // the re-entrancy guard: nothing is decoded, emitted or changed
    ensures st.processingScan ==> r == (st, Busy)
    // a decode that raises leaves the flag up and stores nothing
    ensures !st.processingScan && decoded.None? ==> r == (st.(processingScan := true), Failed)
    // a decoded pass ends idle, holding the frame, with the other flag untouched
    ensures !st.processingScan && decoded.Some? ==>
      && r.1.Scanned?
      && !r.0.processingScan
      && r.0.npImg == Some(frame)
      && r.0.processingFrame == st.processingFrame
    // emitted iff something was found and its (type, data) pairs differ from the stored ones
    ensures !st.processingScan && decoded.Some? ==>
      (r.1.found.Some? <==>
        |decoded.value| > 0 && multiset(Keys(decoded.value)) != multiset(Keys(StoredSymbols(st))))
    // an emission carries the new list, which becomes the stored one; otherwise the stored list stays
    ensures !st.processingScan && decoded.Some? && r.1.found.Some? ==> r.1.found == decoded && r.0.symbols == decoded
    ensures !st.processingScan && decoded.Some? && r.1.found.None? ==> r.0.symbols == st.symbols
  {
    if st.processingScan then (st, Busy)
    else if decoded.None? then (st.(processingScan := true), Failed)
    else
      var detected := decoded.value;
      var announce := Announces(st, detected);
      var symbols := if announce then Some(detected) else st.symbols;
      (st.(processingScan := false, symbols := symbols, npImg := Some(frame)),
       Scanned(if announce then Some(detected) else None))
  }

  /** Two consecutive calls that decode the same `(type, data)` pairs, in any
      order and with any time stamps, emit `symbols-found` at most once. */
  lemma DedupConsecutive(st: Status, f1: Frame, d1: seq<Symbol>, f2: Frame, d2: seq<Symbol>)
    requires !st.processingScan
    requires multiset(Keys(d1)) == multiset(Keys(d2))
    ensures var (st1, o1) := Process(st, f1, Some(d1));
            var (_, o2) := Process(st1, f2, Some(d2));
            !(o1.found.Some? && o2.found.Some?)
  {
  }

  /** A second call on the same frame with the same decoder answer changes
      nothing and announces nothing. */
  lemma RepeatedPassIdle(st: Status, frame: Frame, decoded: Option<seq<Symbol>>)
    ensures var st1 := Process(st, frame, decoded).0;
            Process(st1, frame, decoded) == (st1, if st1.processingScan then Busy else Scanned(None))
  {
    var st1 := Process(st, frame, decoded).0;
    if decoded.Some? && !st.processingScan {
      assert !Announces(st1, decoded.value);
    }
  }

  /** Successive calls of `process_frame` on one status, each with its frame
      and what the decoder reports for it. */
  function Run(st: Status, passes: seq<(Frame, Option<seq<Symbol>>)>): (r: (Status, seq<FrameOutcome>))
    ensures |r.1| == |passes|
    decreases |passes|
  {
    if |passes| == 0 then (st, [])
    else
      var (st1, o) := Process(st, passes[0].0, passes[0].1);
      var (st2, os) := Run(st1, passes[1..]);
      (st2, [o] + os)
  }

  /** With the flag up, every call returns at the guard and nothing changes. */
  lemma {:induction false} BusyRun(st: Status, passes: seq<(Frame, Option<seq<Symbol>>)>)
    requires st.processingScan
    ensures Run(st, passes).0 == st
    ensures forall i :: 0 <= i < |passes| ==> Run(st, passes).1[i] == Busy
  {
    if |passes| > 0 {
      BusyRun(st, passes[1..]);
    }
  }

  /** Once a decode has raised, no later call decodes anything: each returns
      at the guard, and the status stays as the failed pass left it until
      `reset` replaces it. */
  lemma FailureBlocksLaterPasses(st: Status, frame: Frame, passes: seq<(Frame, Option<seq<Symbol>>)>)
    requires !st.processingScan
    ensures var (st1, outs) := Run(st, [(frame, None)] + passes);
            && st1 == st.(processingScan := true)
            && outs[0] == Failed
            && forall i :: 1 <= i < |outs| ==> outs[i] == Busy
  {
    assert ([(frame, None)] + passes)[1..] == passes;
    BusyRun(st.(processingScan := true), passes);
  }

  /** What is stored under `symbols` is never an empty list: it is always the
      last list announced. */
  ghost predicate StoresAnnounced(st: Status) {
    st.symbols.Some? ==> |st.symbols.value| > 0
  }

  lemma ProcessKeepsStoresAnnounced(st: Status, frame: Frame, decoded: Option<seq<Symbol>>)
    requires StoresAnnounced(st)
    ensures StoresAnnounced(Process(st, frame, decoded).0)
  {
  }

  /* ---------------------------------------------------------------------
     Signal handler bookkeeping
     --------------------------------------------------------------------- */

  ghost predicate Increasing(s: seq<nat>) {
    forall i, j :: 0 <= i < j < |s| ==> s[i] < s[j]
  }

  /** The handler list after `disconnect(x)`. */
  function Without(s: seq<nat>, x: nat): (r: seq<nat>)
    ensures forall y :: y in r <==> y in s && y != x
    ensures x !in s ==> r == s
  {
    if |s| == 0 then []
    else
      var t := Without(s[1..], x);
      assert s == [s[0]] + s[1..];
      if s[0] == x then t else [s[0]] + t
  }

  /** Disconnecting from an increasing list keeps it increasing and, when
      the id is connected, removes exactly one entry. */
  lemma {:induction false} WithoutIncreasing(s: seq<nat>, x: nat)
    requires Increasing(s)
    ensures Increasing(Without(s, x))
    ensures x in s ==> |Without(s, x)| == |s| - 1
  {
    if |s| > 0 {
      var t := Without(s[1..], x);
      assert Increasing(s[1..]);
      WithoutIncreasing(s[1..], x);
      assert s == [s[0]] + s[1..];
      if s[0] == x {
        assert x !in s[1..];
      } else {
        forall j | 0 <= j < |t| ensures s[0] < t[j] {
          assert t[j] in s[1..];
        }
      }
    }
  }

  /* ---------------------------------------------------------------------
     The controller object
     --------------------------------------------------------------------- */

  datatype PipelineState = Null | Paused | Playing

  /** The GStreamer pipeline built from a `gst-launch` command. */
  datatype Pipeline = Pipeline(command: string, state: PipelineState)

  /** What `start` returns, or the `ValueError` it raises. */
  datatype StartResult =
    | Started(pipeline: Pipeline, status: Status)
    | NoPipelineCommand
    | NoAppVideo   // the parsed pipeline has no `app-video` element: `app.connect` raises AttributeError

  class BarcodeScanner {
    /** zbar's `ImageScanner`, configured by the constructor. */
    const decode: Decoder
    /** Whether the pipeline `gst.parse_launch` builds from a command has an
        element named `app-video` (GStreamer's parser, not modelled). */
    const hasAppVideo: string -> bool
    /** The id of the `frame-update` connection the constructor makes. */
    const ctorHandler: nat

    var pipelineCommand: Option<string>
    /** `self.status`; `None` until it is first created by `reset`. */
    var status: Option<Status>
    /** The `frame-update` connections to `process_frame`, oldest first. */
    var handlers: seq<nat>
    /** The id the next `connect` returns. */
    var nextHandler: nat
    var scanId: Option<nat>
    var pipeline: Option<Pipeline>

    ghost predicate Valid()
      reads this
    {
      && Increasing(handlers)
      && (forall h :: h in handlers ==> h < nextHandler)
      && ctorHandler in handlers
      && (scanId.Some? ==> scanId.value in handlers && scanId.value != ctorHandler)
      && (pipeline.Some? ==> status.Some?)
    }

    /** `__init__`: binds the default command and connects `process_frame`
        to `frame-update` once, for good. */
    constructor (pipelineCommand: Option<string>, decode: Decoder, hasAppVideo: string -> bool)
      ensures Valid()
      ensures this.pipelineCommand == pipelineCommand && this.decode == decode
      ensures this.hasAppVideo == hasAppVideo
      ensures handlers == [ctorHandler]
      ensures scanId == None && pipeline == None && status == None
    {
      this.decode := decode;
      this.hasAppVideo := hasAppVideo;
      this.ctorHandler := 1;
      this.pipelineCommand := pipelineCommand;
      this.status := None;
      this.handlers := [1];
      this.nextHandler := 2;
      this.scanId := None;
      this.pipeline := None;
    }

    /** `process_frame`: one decode pass over a frame, guarded against re-entry. */
    method ProcessFrame(frame: Frame) returns (outcome: FrameOutcome)
      modifies this`status
      ensures old(status).None? ==> outcome == NoStatus && status == None
      ensures old(status).Some? ==>
        status.Some? && (status.value, outcome) == Process(old(status).value, frame, decode(frame))
    {
      if status.None? {
        return NoStatus;
      }
      if status.value.processingScan {
        return Busy;
      }
      status := Some(status.value.(processingScan := true));
      var decoded := decode(frame);
      if decoded.None? {
        return Failed;
      }
      var symbols := decoded.value;
      var found: Option<seq<Symbol>> := None;
      if |symbols| > 0 && !SymbolsEqual(symbols, StoredSymbols(status.value)) {
        found := Some(symbols);
        status := Some(status.value.(symbols := Some(symbols), npImg := Some(frame)));
      }
      status := Some(status.value.(npImg := Some(frame)));
      status := Some(status.value.(processingScan := false));
      outcome := Scanned(found);
    }

    /** The appsink's `new-buffer` callback installed by `start`: raises
        `processing_frame`, emits `frame-update` (which runs `process_frame`
        once per connection, oldest first) and lowers the flag again. Only
        the playing pipeline delivers buffers. An exception in one handler
        is reported by the signal emission, which goes on with the next.
        The first connection does the work; the later ones find the frame's
        symbols already stored, or the flag still up after a failure. */
    method OnNewBuffer(frame: Frame) returns (outcomes: seq<FrameOutcome>)
      requires Valid()
      requires pipeline.Some? && pipeline.value.state == Playing
      modifies this`status
      ensures Valid()
      ensures |outcomes| == |handlers| >= 1
      ensures var first := Process(old(status).value.(processingFrame := true), frame, decode(frame));
              && outcomes[0] == first.1
              && (forall i :: 1 <= i < |outcomes| ==>
                    outcomes[i] == if first.0.processingScan then Busy else Scanned(None))
              && status == Some(first.0.(processingFrame := false))
    {
      var start := status.value.(processingFrame := true);
      status := Some(start);
      var first := Process(start, frame, decode(frame));
      RepeatedPassIdle(start, frame, decode(frame));
      var later := if first.0.processingScan then Busy else Scanned(None);
      outcomes := [];
      var i := 0;
      while i < |handlers|
        invariant 0 <= i <= |handlers|
        invariant |outcomes| == i
        invariant i == 0 ==> status == Some(start)
        invariant i >= 1 ==> outcomes[0] == first.1 && status == Some(first.0)
        invariant forall j :: 1 <= j < i ==> outcomes[j] == later
      {
        var o := ProcessFrame(frame);
        outcomes := outcomes + [o];
        i := i + 1;
      }
      status := Some(status.value.(processingFrame := false));
    }

    /** `reset`: a fresh status with both flags down and nothing stored. */
    method Reset()
      modifies this`status
      ensures status == Some(ResetStatus)
    {
      status := Some(ResetStatus);
    }

    /** `enable_scan`: one more `frame-update` connection to `process_frame`,
        remembered in `scan_id`; earlier ones stay connected. */
    method EnableScan()
      requires Valid()
      modifies this`handlers, this`nextHandler, this`scanId
      ensures Valid()
      ensures handlers == old(handlers) + [old(nextHandler)]
      ensures scanId == Some(old(nextHandler)) && nextHandler == old(nextHandler) + 1
    {
      var id := nextHandler;
      assert forall i :: 0 <= i < |handlers| ==> handlers[i] in handlers;
      handlers := handlers + [id];
      nextHandler := nextHandler + 1;
      scanId := Some(id);
    }

    /** `disable_scan`: drops the connection remembered in `scan_id`, if any,
        and resets the status. A second call only resets again. */
    method DisableScan()
      requires Valid()
      modifies this`handlers, this`scanId, this`status
      ensures Valid()
      ensures scanId == None && status == Some(ResetStatus)
      ensures old(scanId).Some? ==>
        handlers == Without(old(handlers), old(scanId).value) && |handlers| == |old(handlers)| - 1
      ensures old(scanId).None? ==> handlers == old(handlers)
      ensures ctorHandler in handlers
    {
      if scanId.Some? {
        WithoutIncreasing(handlers, scanId.value);
        handlers := Without(handlers, scanId.value);
        scanId := None;
      }
      Reset();
    }

    /** `pause`: a present pipeline goes to PAUSED. */
    method Pause()
      modifies this`pipeline
      ensures pipeline == if old(pipeline).Some? then Some(old(pipeline).value.(state := Paused)) else None
    {
      if pipeline.Some? {
        pipeline := Some(pipeline.value.(state := Paused));
      }
    }

    /** `stop`: pauses, sets a present pipeline to NULL and drops it. */
    method Stop()
      requires Valid()
      modifies this`pipeline
      ensures Valid()
      ensures pipeline == None
    {
      Pause();
      if pipeline.Some? {
        pipeline := Some(pipeline.value.(state := Null));
        pipeline := None;
      }
    }

    /** `start`: resets the status, chooses the command (the argument, else the
        bound one, else `ValueError`), stops a running pipeline, parses a new
        one and, when it has an `app-video` element, sets it playing, binds
        its command and, when asked, enables scanning. */
    method Start(command: Option<string>, enableScan: bool) returns (r: StartResult)
      requires Valid()
      modifies this`status, this`pipeline, this`pipelineCommand, this`handlers,
        this`nextHandler, this`scanId
      ensures Valid()
      ensures status == Some(ResetStatus)
      ensures command.None? && old(pipelineCommand).None? ==>
        && r == NoPipelineCommand
        && pipeline == old(pipeline) && pipelineCommand == None
        && handlers == old(handlers) && scanId == old(scanId)
      ensures command.Some? || old(pipelineCommand).Some? ==>
        var used := if command.Some? then command.value else old(pipelineCommand).value;
        if hasAppVideo(used) then
          && r == Started(Pipeline(used, Playing), ResetStatus)
          && pipeline == Some(Pipeline(used, Playing))
          && pipelineCommand == Some(used)
        else
          // the parsed pipeline is kept, never set playing, and its command is not bound
          && r == NoAppVideo
          && pipeline == Some(Pipeline(used, Null))
          && pipelineCommand == old(pipelineCommand)
      ensures r.Started? && enableScan ==>
        handlers == old(handlers) + [old(nextHandler)] && scanId == Some(old(nextHandler))
      ensures !(r.Started? && enableScan) ==> handlers == old(handlers) && scanId == old(scanId)
      ensures nextHandler == old(nextHandler) + (if r.Started? && enableScan then 1 else 0)
    {
      Reset();
      var used: string;
      if command.None? {
        if pipelineCommand.None? {
          return NoPipelineCommand;
        }
        used := pipelineCommand.value;
      } else {
        used := command.value;
      }
      if pipeline.Some? {
        Stop();
      }
      var p := Pipeline(used, Null);
      pipeline := Some(p);
      Reset();
      if !hasAppVideo(used) {
        return NoAppVideo;
      }
      p := p.(state := Paused);
      p := p.(state := Playing);
      pipeline := Some(p);
      pipelineCommand := Some(used);
      if enableScan {
        EnableScan();
      }
      r := Started(p, status.value);
    }
  }
}

/** The USB camera driver (camera/usb_driver.py): format negotiation, start, stop and
  the photo that briefly takes the stream to another resolution.

  The hardware enters as the outcome of each attempt to open it; other threads enter
  as the calls they make while a photo is being waited for. */
module UsbCamera {
  import opened Prelude
  import opened PyText

  const YUYV_MAX_FPS := 10
  const DEFAULT_RESOLUTION := "640x480"
  const DEFAULT_FPS := 30

  // One entry of frame_sizes(); a missing width or height is 0.
  datatype FrameSize = FrameSize(format: string, width: int, height: int)

  type Size = (int, int)

  // What the device does when it is opened once.
  datatype Attempt = Attempt(installed: bool, opens: bool, advertised: seq<FrameSize>, accepts: bool, runs: bool)

  datatype Mode = Mode(resolution: string, fps: int, pixelFormat: string)

  // A published frame, and the stream its reader belongs to.
  datatype Frame = Frame(data: seq<bv8>, resolution: string, generation: nat)

  // A reader thread of one stream; `held` is a frame it has taken from the device and
  // is still decoding.
  datatype Reader = Reader(generation: nat, resolution: string, held: Option<seq<bv8>>)

  // f"{width}x{height}"
  function Render(size: Size): string {
    Decimal(size.0) + "x" + Decimal(size.1)
  }

  // (int(part) for part in text.split("x")), of exactly two parts.
  function ReadSize(text: string): Option<Size> {
    var i := IndexOf(text, 'x');
    if i >= |text| || 'x' in text[i + 1..] then None
    else match (ReadInt(text[..i]), ReadInt(text[i + 1..]))
      case (Some(w), Some(h)) => Some((w, h))
      case _ => None
  }

  // ------------------------------------------------------------------- negotiation

  function Area(size: Size): int {
    size.0 * size.1
  }

  // Sizes without repeats, by area; equal areas stay in order of appearance.
  function Insert(sizes: seq<Size>, size: Size): seq<Size> {
    if sizes == [] || Area(size) < Area(sizes[0]) then [size] + sizes
    else [sizes[0]] + Insert(sizes[1..], size)
  }

  predicate Usable(f: FrameSize, format: string) {
    f.format == format && f.width != 0 && f.height != 0
  }

  function Sizes(advertised: seq<FrameSize>, format: string): seq<Size> {
    if advertised == [] then []
    else
      var n := |advertised| - 1;
      var before, f := Sizes(advertised[..n], format), advertised[n];
      if Usable(f, format) && (f.width, f.height) !in before then Insert(before, (f.width, f.height)) else before
  }

  predicate Offers(advertised: seq<FrameSize>, format: string) {
    exists i :: 0 <= i < |advertised| && advertised[i].format == format
  }

  function Fitted(size: Size, sizes: seq<Size>): Size {
    if sizes == [] || size in sizes then size else sizes[0]
  }

  function Negotiated(advertised: seq<FrameSize>, resolution: string, fps: int): Option<Mode> {
    match ReadSize(resolution)
    case None => None
    case Some(size) =>
      if Offers(advertised, "MJPEG") then Some(Mode(Render(size), fps, "MJPG"))
      else if Offers(advertised, "YUYV") then
        Some(Mode(Render(Fitted(size, Sizes(advertised, "YUYV"))),
                  if fps > YUYV_MAX_FPS then YUYV_MAX_FPS else fps, "YUYV"))
      else None
  }

  lemma RenderReads(size: Size)
    ensures ReadSize(Render(size)) == Some(size) && Render(size) != ""
  {
    var w, h := Decimal(size.0), Decimal(size.1);
    ReadIntOfDecimal(size.0);
    ReadIntOfDecimal(size.1);
    IndexOfSkips(w, 'x', h);
    assert Render(size) == w + "x" + h && Render(size)[..|w|] == w && Render(size)[|w| + 1..] == h;
  }

  lemma {:induction false} InsertKeepsOrder(sizes: seq<Size>, size: Size)
    requires forall i, j :: 0 <= i < j < |sizes| ==> Area(sizes[i]) <= Area(sizes[j])
    ensures forall s :: s in Insert(sizes, size) <==> s in sizes || s == size
    ensures forall i, j :: 0 <= i < j < |sizes| + 1 == |Insert(sizes, size)| ==>
              Area(Insert(sizes, size)[i]) <= Area(Insert(sizes, size)[j])
    ensures |Insert(sizes, size)| == |sizes| + 1
  {
    if sizes != [] && Area(size) >= Area(sizes[0]) {
      InsertKeepsOrder(sizes[1..], size);
      assert sizes == [sizes[0]] + sizes[1..];
      assert Insert(sizes, size) == [sizes[0]] + Insert(sizes[1..], size);
      forall t | t in Insert(sizes[1..], size) ensures Area(sizes[0]) <= Area(t) {}
    }
  }

  ghost predicate Offered(advertised: seq<FrameSize>, format: string, size: Size) {
    exists f :: f in advertised && Usable(f, format) && size == (f.width, f.height)
  }

  // The list holds the advertised sizes with both dimensions, smallest first.
  lemma {:induction false} SizesAreAdvertised(advertised: seq<FrameSize>, format: string)
    ensures forall s: Size :: s in Sizes(advertised, format) <==> Offered(advertised, format, s)
    ensures forall i, j :: 0 <= i < j < |Sizes(advertised, format)| ==>
              Area(Sizes(advertised, format)[i]) <= Area(Sizes(advertised, format)[j])
  {
    if advertised != [] {
      var n := |advertised| - 1;
      SizesAreAdvertised(advertised[..n], format);
      assert advertised == advertised[..n] + [advertised[n]];
      InsertKeepsOrder(Sizes(advertised[..n], format), (advertised[n].width, advertised[n].height));
    }
  }

  // A negotiated mode negotiates to itself.
  lemma NegotiationProjects(advertised: seq<FrameSize>, resolution: string, fps: int)
    requires Negotiated(advertised, resolution, fps).Some?
    ensures var m := Negotiated(advertised, resolution, fps).value;
            Negotiated(advertised, m.resolution, m.fps) == Some(m) && m.resolution != ""
  {
    var size := ReadSize(resolution).value;
    RenderReads(size);
    RenderReads(Fitted(size, Sizes(advertised, "YUYV")));
  }

  // On a camera without MJPEG the rate is capped, and the size is one the camera
  // offers: the requested one if it is there, else one of least area.
  lemma RawModeIsOffered(advertised: seq<FrameSize>, resolution: string, fps: int, size: Size, some: Size)
    requires !Offers(advertised, "MJPEG") && Offered(advertised, "YUYV", some) && ReadSize(resolution) == Some(size)
    ensures exists chosen: Size ::
              && Negotiated(advertised, resolution, fps)
                 == Some(Mode(Render(chosen), if fps < 10 then fps else 10, "YUYV"))
              && Offered(advertised, "YUYV", chosen)
              && (Offered(advertised, "YUYV", size) ==> chosen == size)
              && (!Offered(advertised, "YUYV", size) ==> IsLeast(advertised, chosen))
  {
    var sizes := Sizes(advertised, "YUYV");
    SizesAreAdvertised(advertised, "YUYV");
    assert some in sizes;
    var chosen := Fitted(size, sizes);
    assert chosen in sizes && (size !in sizes ==> chosen == sizes[0]);
    OfferedFormat(advertised, "YUYV", some);
    if size !in sizes {
      LeastFirst(advertised);
    }
  }

  // On a camera with MJPEG the request is taken as it is, its size written plainly.
  lemma CompressedModeIsAsRequested(advertised: seq<FrameSize>, resolution: string, fps: int, size: Size)
    requires Offers(advertised, "MJPEG") && ReadSize(resolution) == Some(size)
    ensures Negotiated(advertised, resolution, fps) == Some(Mode(Render(size), fps, "MJPG"))
    ensures ReadSize(Render(size)) == Some(size)
  {
    RenderReads(size);
  }

  // There is no mode exactly when the request is no size or the camera offers neither
  // format.
  lemma NoModeIff(advertised: seq<FrameSize>, resolution: string, fps: int)
    ensures Negotiated(advertised, resolution, fps).None? <==>
              ReadSize(resolution).None? || (!Offers(advertised, "MJPEG") && !Offers(advertised, "YUYV"))
  {}

  lemma OfferedFormat(advertised: seq<FrameSize>, format: string, size: Size)
    requires Offered(advertised, format, size)
    ensures Offers(advertised, format)
  {}

  ghost predicate IsLeast(advertised: seq<FrameSize>, size: Size) {
    forall other: Size :: Offered(advertised, "YUYV", other) ==> Area(size) <= Area(other)
  }

  lemma LeastFirst(advertised: seq<FrameSize>)
    requires Sizes(advertised, "YUYV") != []
    ensures IsLeast(advertised, Sizes(advertised, "YUYV")[0])
  {
    SizesAreAdvertised(advertised, "YUYV");
  }

  // ------------------------------------------------------------------ start and stop

  // Every reader thread ever started stays in the picture; the last one is the one
  // stop() waits for.
  datatype Stream = Stream(open: bool, started: bool, resolution: string, fps: int, pixelFormat: Option<string>,
                           generation: nat, lastFrame: Option<Frame>, readers: seq<Reader>)

  function Or(text: Option<string>, otherwise: string): string {
    if text.None? || text.value == "" then otherwise else text.value
  }

  function OrInt(n: Option<int>, otherwise: int): int {
    if n.None? || n.value == 0 then otherwise else n.value
  }

  predicate Running(s: Stream) {
    s.started && s.open
  }

  predicate Starts(s: Stream, resolution: Option<string>, fps: Option<int>, a: Attempt) {
    || Running(s)
    || (a.installed && a.opens && a.accepts && a.runs
        && Negotiated(a.advertised, Or(resolution, s.resolution), OrInt(fps, s.fps)).Some?)
  }

  function Started(s: Stream, resolution: Option<string>, fps: Option<int>, a: Attempt): Stream {
    if Running(s) || !a.installed then s
    else Opened(s, Negotiated(a.advertised, Or(resolution, s.resolution), OrInt(fps, s.fps)), a)
  }

  function Opened(s: Stream, mode: Option<Mode>, a: Attempt): Stream {
    if !a.opens then s.(started := false, open := false)
    else match mode
      case None => s.(open := false)
      case Some(m) =>
        if !a.accepts then s.(open := false)
        else Stream(a.runs, a.runs, m.resolution, m.fps, Some(m.pixelFormat), s.generation + 1, None,
                    if a.runs then s.readers + [Reader(s.generation + 1, m.resolution, None)] else s.readers)
  }

  // `joined`: the reader thread ended within the two seconds stop() waits for it.
  function Stopped(s: Stream, joined: bool): Stream {
    var readers := if joined && Running(s) then LetGo(s.readers) else s.readers;
    s.(generation := s.generation + 1, started := false, open := false, lastFrame := None, readers := readers)
  }

  function LetGo(readers: seq<Reader>): seq<Reader> {
    if readers == [] then [] else readers[|readers| - 1 := readers[|readers| - 1].(held := None)]
  }

  // A reader goes on only while its stream is the current one, but tests that before
  // it decodes the frame, not after.
  function Taken(s: Stream, r: nat, data: seq<bv8>): Stream {
    if r < |s.readers| && s.readers[r].generation == s.generation && s.readers[r].held.None? && data != []
    then s.(readers := s.readers[r := s.readers[r].(held := Some(data))])
    else s
  }

  function Published(s: Stream, r: nat): Stream {
    if r < |s.readers| && s.readers[r].held.Some? then
      var reader := s.readers[r];
      s.(lastFrame := Some(Frame(reader.held.value, reader.resolution, reader.generation)),
         readers := s.readers[r := reader.(held := None)])
    else s
  }

  datatype Call = Start(resolution: Option<string>, fps: Option<int>, attempt: Attempt)
                | Stop(joined: bool)
                | Take(reader: nat, data: seq<bv8>)
                | Publish(reader: nat)

  predicate IsReading(call: Call) {
    call.Take? || call.Publish?
  }

  function After(s: Stream, call: Call): Stream {
    match call
    case Start(resolution, fps, attempt) => Started(s, resolution, fps, attempt)
    case Stop(joined) => Stopped(s, joined)
    case Take(reader, data) => Taken(s, reader, data)
    case Publish(reader) => Published(s, reader)
  }

  function Ran(s: Stream, calls: seq<Call>): Stream
    decreases |calls|
  {
    if calls == [] then s else Ran(After(s, calls[0]), calls[1..])
  }

  // The first frame seen while others make these calls; none before the deadline.
  function FirstFrame(s: Stream, calls: seq<Call>): Option<Frame>
    decreases |calls|
  {
    if s.lastFrame.Some? || calls == [] then s.lastFrame else FirstFrame(After(s, calls[0]), calls[1..])
  }

  // ---------------------------------------------------------------------- the photo

  // One capture: the requested resolution, the widest one probed, the attempts to
  // open for the photo and to resume, whether each stop before them saw the reader
  // thread end, and what other threads do while the photo is waited for and after it
  // arrived.
  datatype Shot = Shot(resolution: Option<string>, widest: Option<string>, joined: bool, attempt: Attempt,
                       joinedBack: bool, back: Attempt, meanwhile: seq<Call>, afterwards: seq<Call>)

  function Target(s: Stream, shot: Shot): string {
    Or(shot.resolution, Or(shot.widest, s.resolution))
  }

  predicate Switches(s: Stream, shot: Shot) {
    s.started && Target(s, shot) != s.resolution
  }

  // The stream the photo is taken from.
  function Posing(s: Stream, shot: Shot): Stream {
    var ready := if Switches(s, shot) then Stopped(s, shot.joined) else s;
    if ready.started then ready else Started(ready, Some(Target(s, shot)), None, shot.attempt)
  }

  predicate Poses(s: Stream, shot: Shot) {
    var ready := if Switches(s, shot) then Stopped(s, shot.joined) else s;
    ready.started || Starts(ready, Some(Target(s, shot)), None, shot.attempt)
  }

  function Captured(s: Stream, shot: Shot): Stream {
    var posing := Posing(s, shot);
    if !Poses(s, shot) then
      if Switches(s, shot) then Started(posing, Some(s.resolution), Some(s.fps), shot.back) else posing
    else
      var later := Ran(Ran(posing, shot.meanwhile), shot.afterwards);
      if Switches(s, shot) then Started(Stopped(later, shot.joinedBack), Some(s.resolution), Some(s.fps), shot.back)
      else later
  }

  function Photo(s: Stream, shot: Shot): Option<Frame> {
    if Poses(s, shot) then FirstFrame(Posing(s, shot), shot.meanwhile) else None
  }

  class UsbCameraDriver {
    var open: bool
    var started: bool
    var resolution: string
    var fps: int
    var pixelFormat: Option<string>
    var generation: nat
    var lastFrame: Option<Frame>
    var readers: seq<Reader>

    ghost function Now(): Stream
      reads this
    {
      Stream(open, started, resolution, fps, pixelFormat, generation, lastFrame, readers)
    }

    constructor ()
      ensures Now() == New
    {
      open, started, resolution, fps, pixelFormat := false, false, DEFAULT_RESOLUTION, DEFAULT_FPS, None;
      generation, lastFrame, readers := 0, None, [];
    }

    method SizesForPixelFormat(advertised: seq<FrameSize>, format: string) returns (sizes: seq<Size>)
      ensures sizes == Sizes(advertised, format)
    {
      sizes := [];
      for i := 0 to |advertised|
        invariant sizes == Sizes(advertised[..i], format)
      {
        assert advertised[..i + 1][..i] == advertised[..i];
        var f := advertised[i];
        if Usable(f, format) && (f.width, f.height) !in sizes {
          sizes := Insert(sizes, (f.width, f.height));
        }
      }
      assert advertised[..|advertised|] == advertised;
    }

    // False, and nothing changed, if the request or the device is no good.
    method ApplyFormat(requested: string, rate: int, a: Attempt) returns (ok: bool)
      modifies this`resolution, this`fps, this`pixelFormat
      ensures ok == (Negotiated(a.advertised, requested, rate).Some? && a.accepts)
      ensures ok ==> pixelFormat.Some?
      ensures ok ==> Negotiated(a.advertised, requested, rate) == Some(Mode(resolution, fps, pixelFormat.value))
      ensures !ok ==> Now() == old(Now())
    {
      var read := ReadSize(requested);
      if read.None? {
        return false;
      }
      var size, limit := read.value, rate;
      var format;
      if Offers(a.advertised, "MJPEG") {
        format := "MJPG";
      } else if Offers(a.advertised, "YUYV") {
        format := "YUYV";
        var sizes := SizesForPixelFormat(a.advertised, "YUYV");
        if sizes != [] && size !in sizes {
          size := sizes[0];
        }
        if limit > YUYV_MAX_FPS {
          limit := YUYV_MAX_FPS;
        }
      } else {
        return false;
      }
      if !a.accepts {
        return false;
      }
      resolution, fps, pixelFormat := Render(size), limit, Some(format);
      return true;
    }

    method Start(requested: Option<string>, rate: Option<int>, a: Attempt) returns (ok: bool)
      modifies this
      ensures ok == Starts(old(Now()), requested, rate, a) && Now() == Started(old(Now()), requested, rate, a)
    {
      if started && open {
        return true;
      }
      if !a.installed {
        return false;
      }
      ok := Open(Or(requested, resolution), OrInt(rate, fps), a);
    }

    // Opens the device, negotiates and starts reading.
    method Open(requested: string, rate: int, a: Attempt) returns (ok: bool)
      requires a.installed && !(started && open)
      modifies this
      ensures Now() == Opened(old(Now()), Negotiated(a.advertised, requested, rate), a)
      ensures ok == (a.opens && a.accepts && a.runs && Negotiated(a.advertised, requested, rate).Some?)
    {
      open := a.opens;
      if !a.opens {
        started := false;
        return false;
      }
      var applied := ApplyFormat(requested, rate, a);
      if !applied {
        open := false;
        return false;
      }
      Launch(a.runs);
      return a.runs;
    }

    // Starts the reader thread in the format just applied.
    method Launch(runs: bool)
      modifies this
      ensures Now() == old(Now()).(open := runs && old(open), started := runs, generation := old(generation) + 1,
                                   lastFrame := None,
                                   readers := if runs then old(readers) + [Reader(generation, resolution, None)]
                                              else old(readers))
    {
      started, generation, lastFrame := true, generation + 1, None;
      if !runs {
        started, open := false, false;
        return;
      }
      readers := readers + [Reader(generation, resolution, None)];
    }

    method Stop(joined: bool)
      modifies this
      ensures Now() == Stopped(old(Now()), joined)
    {
      if joined && started && open {
        readers := LetGo(readers);
      }
      generation, started, open := generation + 1, false, false;
      lastFrame := None;
    }

    // One round of a reader thread, in two halves.
    method TakeFrame(r: nat, data: seq<bv8>)
      modifies this`readers
      ensures Now() == Taken(old(Now()), r, data)
    {
      if r < |readers| && readers[r].generation == generation && readers[r].held.None? && data != [] {
        readers := readers[r := readers[r].(held := Some(data))];
      }
    }

    method PublishFrame(r: nat)
      modifies this`readers, this`lastFrame
      ensures Now() == Published(old(Now()), r)
    {
      if r < |readers| && readers[r].held.Some? {
        lastFrame := Some(Frame(readers[r].held.value, readers[r].resolution, readers[r].generation));
        readers := readers[r := readers[r].(held := None)];
      }
    }

    // What other threads do while no capture holds the lock.
    method Yield(calls: seq<Call>)
      modifies this
      ensures Now() == Ran(old(Now()), calls)
    {
      for i := 0 to |calls|
        invariant Ran(old(Now()), calls) == Ran(Now(), calls[i..])
      {
        assert calls[i..][1..] == calls[i + 1..];
        match calls[i]
        case Start(requested, rate, a) => var _ := Start(requested, rate, a);
        case Stop(joined) => Stop(joined);
        case Take(r, data) => TakeFrame(r, data);
        case Publish(r) => PublishFrame(r);
      }
    }

    method WaitForFrame(calls: seq<Call>) returns (photo: Option<Frame>)
      modifies this
      ensures Now() == Ran(old(Now()), calls) && photo == FirstFrame(old(Now()), calls)
    {
      var i := 0;
      while lastFrame.None? && i < |calls|
        invariant i <= |calls|
        invariant Ran(old(Now()), calls) == Ran(Now(), calls[i..])
        invariant FirstFrame(old(Now()), calls) == FirstFrame(Now(), calls[i..])
      {
        assert calls[i..][1..] == calls[i + 1..];
        Yield([calls[i]]);
        assert [calls[i]][1..] == [];
        i := i + 1;
      }
      photo := lastFrame;
      Yield(calls[i..]);
    }

    method CapturePhoto(shot: Shot) returns (photo: Option<Frame>)
      modifies this
      ensures photo == Photo(old(Now()), shot) && Now() == Captured(old(Now()), shot)
    {
      var target := Or(shot.resolution, Or(shot.widest, resolution));
      var temporarySwitch := started && target != resolution;
      var originalResolution, originalFps := resolution, fps;
      if temporarySwitch {
        Stop(shot.joined);
      }
      if !started {
        var ok := Start(Some(target), None, shot.attempt);
        if !ok {
          if temporarySwitch {
            var _ := Start(Some(originalResolution), Some(originalFps), shot.back);
          }
          return None;
        }
      }
      photo := WaitForFrame(shot.meanwhile);
      Yield(shot.afterwards);
      if temporarySwitch {
        Stop(shot.joinedBack);
        var _ := Start(Some(originalResolution), Some(originalFps), shot.back);
      }
    }
  }

  // -------------------------------------------------------------------- whole runs

  const New := Stream(false, false, DEFAULT_RESOLUTION, DEFAULT_FPS, None, 0, None, [])

  // A running stream has an open device and the last reader is its own; a reader of
  // the current generation reads at the current resolution.
  ghost predicate Inv(s: Stream) {
    && (s.started ==> s.open && s.readers != [] && s.readers[|s.readers| - 1].generation == s.generation)
    && s.resolution != "" && s.fps != 0
    && forall r :: 0 <= r < |s.readers| ==> ReaderInv(s, s.readers[r], r)
  }

  ghost predicate ReaderInv(s: Stream, reader: Reader, r: nat) {
    && reader.generation <= s.generation
    && (reader.generation == s.generation ==> r == |s.readers| - 1 && reader.resolution == s.resolution)
  }

  // Every successful start so far negotiated against this list.
  ghost predicate Settled(s: Stream, advertised: seq<FrameSize>) {
    s.started ==> s.pixelFormat.Some?
                  && Negotiated(advertised, s.resolution, s.fps) == Some(Mode(s.resolution, s.fps, s.pixelFormat.value))
  }

  ghost predicate AllAdvertise(calls: seq<Call>, advertised: seq<FrameSize>) {
    forall call :: call in calls ==> (call.Start? ==> call.attempt.advertised == advertised)
  }

  predicate SameMode(t: Stream, s: Stream) {
    t.started == s.started && t.resolution == s.resolution && t.fps == s.fps && t.pixelFormat == s.pixelFormat
  }

  // No other thread starts or stops the stream during the photo; readers go on.
  ghost predicate Undisturbed(shot: Shot) {
    forall call :: call in shot.meanwhile + shot.afterwards ==> IsReading(call)
  }

  lemma StartKeeps(s: Stream, resolution: Option<string>, fps: Option<int>, a: Attempt)
    requires Inv(s)
    ensures var t := Started(s, resolution, fps, a);
            Inv(t) && t.generation >= s.generation && (Settled(s, a.advertised) ==> Settled(t, a.advertised))
  {
    var requested, rate := Or(resolution, s.resolution), OrInt(fps, s.fps);
    if Negotiated(a.advertised, requested, rate).Some? {
      NegotiationProjects(a.advertised, requested, rate);
    }
  }

  lemma StopKeeps(s: Stream, joined: bool, advertised: seq<FrameSize>)
    requires Inv(s)
    ensures var t := Stopped(s, joined);
            Inv(t) && t.generation > s.generation && !t.started && Settled(t, advertised)
  {
    var t := Stopped(s, joined);
    forall r | 0 <= r < |t.readers| ensures ReaderInv(t, t.readers[r], r) {
      assert ReaderInv(s, s.readers[r], r) && t.readers[r].generation == s.readers[r].generation;
    }
  }

  lemma ReadingKeeps(s: Stream, call: Call)
    requires Inv(s) && IsReading(call)
    ensures var t := After(s, call);
            && Inv(t) && |t.readers| == |s.readers|
            && t.(lastFrame := None, readers := []) == s.(lastFrame := None, readers := [])
  {
    var t := After(s, call);
    forall r | 0 <= r < |t.readers| ensures ReaderInv(t, t.readers[r], r) { assert ReaderInv(s, s.readers[r], r); }
  }

  lemma {:induction false} RunKeeps(s: Stream, calls: seq<Call>, advertised: seq<FrameSize>)
    requires Inv(s)
    ensures Inv(Ran(s, calls)) && Ran(s, calls).generation >= s.generation
    ensures Settled(s, advertised) && AllAdvertise(calls, advertised) ==> Settled(Ran(s, calls), advertised)
    decreases |calls|
  {
    if calls != [] {
      match calls[0] {
        case Start(resolution, fps, attempt) => StartKeeps(s, resolution, fps, attempt);
        case Stop(joined) => StopKeeps(s, joined, advertised);
        case _ => ReadingKeeps(s, calls[0]);
      }
      assert calls[0] in calls;
      RunKeeps(After(s, calls[0]), calls[1..], advertised);
    }
  }

  // The camera can be reopened in this very mode.
  predicate Resumes(s: Stream, a: Attempt) {
    && a.installed && a.opens && a.accepts && a.runs
    && Negotiated(a.advertised, s.resolution, s.fps).Some?
    && var m := Negotiated(a.advertised, s.resolution, s.fps).value; m.resolution == s.resolution && m.fps == s.fps
  }

  lemma Reopened(s: Stream, was: Stream, a: Attempt)
    requires Inv(was) && !s.started
    ensures var t := Started(s, Some(was.resolution), Some(was.fps), a);
            (t.started && t.resolution == was.resolution && t.fps == was.fps <==> Resumes(was, a))
            && (Resumes(was, a) ==> t.generation == s.generation + 1)
  {}

  // A photo at another resolution leaves the stream running at its old settings
  // exactly when the device can be reopened with them, whether or not the photo
  // itself worked and whatever other threads did meanwhile.
  lemma SwitchResumesIff(s: Stream, shot: Shot)
    requires Inv(s) && Switches(s, shot)
    ensures var t := Captured(s, shot);
            (t.started && t.resolution == s.resolution && t.fps == s.fps <==> Resumes(s, shot.back))
            && t.generation > s.generation
  {
    var posing := Posing(s, shot);
    StopKeeps(s, shot.joined, []);
    StartKeeps(Stopped(s, shot.joined), Some(Target(s, shot)), None, shot.attempt);
    if Poses(s, shot) {
      RunKeeps(posing, shot.meanwhile, []);
      RunKeeps(Ran(posing, shot.meanwhile), shot.afterwards, []);
      var later := Ran(Ran(posing, shot.meanwhile), shot.afterwards);
      StopKeeps(later, shot.joinedBack, []);
      Reopened(Stopped(later, shot.joinedBack), s, shot.back);
      StartKeeps(Stopped(later, shot.joinedBack), Some(s.resolution), Some(s.fps), shot.back);
    } else {
      Reopened(posing, s, shot.back);
      StartKeeps(posing, Some(s.resolution), Some(s.fps), shot.back);
    }
  }

  predicate Steady(a: Attempt, advertised: seq<FrameSize>) {
    a == Attempt(true, true, advertised, true, true)
  }

  // After any history on a camera that keeps advertising the same sizes, a photo
  // from a running stream ends with the stream in exactly the mode it had.  Its
  // generation has grown exactly when the photo needed another resolution.
  lemma CaptureRestores(history: seq<Call>, shot: Shot, advertised: seq<FrameSize>)
    requires AllAdvertise(history, advertised) && Undisturbed(shot)
    requires Steady(shot.attempt, advertised) && Steady(shot.back, advertised)
    requires Ran(New, history).started
    ensures SameMode(Captured(Ran(New, history), shot), Ran(New, history))
    ensures var generation := Captured(Ran(New, history), shot).generation;
            if Switches(Ran(New, history), shot) then generation > Ran(New, history).generation
            else generation == Ran(New, history).generation
  {
    RunKeeps(New, history, advertised);
    CaptureKeepsMode(Ran(New, history), shot, advertised);
  }

  lemma CaptureKeepsMode(s: Stream, shot: Shot, advertised: seq<FrameSize>)
    requires Inv(s) && Settled(s, advertised) && s.started && Undisturbed(shot)
    requires Steady(shot.attempt, advertised) && Steady(shot.back, advertised)
    ensures SameMode(Captured(s, shot), s)
    ensures if Switches(s, shot) then Captured(s, shot).generation > s.generation
            else Captured(s, shot).generation == s.generation
  {
    if Switches(s, shot) {
      SwitchResumesIff(s, shot);
    } else {
      ReadersOnlyRead(s, shot.meanwhile);
      ReadersOnlyRead(Ran(s, shot.meanwhile), shot.afterwards);
    }
  }

  lemma {:induction false} ReadersOnlyRead(s: Stream, calls: seq<Call>)
    requires Inv(s) && forall call :: call in calls ==> IsReading(call)
    ensures Ran(s, calls).(lastFrame := None, readers := []) == s.(lastFrame := None, readers := [])
    ensures Inv(Ran(s, calls))
    decreases |calls|
  {
    if calls != [] {
      assert calls[0] in calls;
      ReadingKeeps(s, calls[0]);
      ReadersOnlyRead(After(s, calls[0]), calls[1..]);
    }
  }

  // ---------------------------------------------------------------- whose frame it is

  // A reader of an earlier stream still decodes a frame.
  ghost predicate HeldOver(s: Stream) {
    exists r :: 0 <= r < |s.readers| && s.readers[r].held.Some? && s.readers[r].generation != s.generation
  }

  predicate OfThisStream(s: Stream, frame: Option<Frame>) {
    frame.Some? ==> frame.value.generation == s.generation && frame.value.resolution == s.resolution
  }

  ghost predicate AllReading(calls: seq<Call>) {
    forall call :: call in calls ==> IsReading(call)
  }

  lemma {:induction false} NothingHeldOver(s: Stream, calls: seq<Call>)
    requires Inv(s) && !HeldOver(s) && OfThisStream(s, s.lastFrame) && AllReading(calls)
    ensures OfThisStream(s, FirstFrame(s, calls))
    decreases |calls|
  {
    if calls != [] && s.lastFrame.None? {
      assert calls[0] in calls;
      var t := After(s, calls[0]);
      ReadingKeeps(s, calls[0]);
      forall r | 0 <= r < |t.readers| && t.readers[r].held.Some?
        ensures t.readers[r].generation == t.generation
      {
        assert ReaderInv(s, s.readers[r], r);
      }
      assert OfThisStream(t, t.lastFrame) by {
        if calls[0].Publish? && calls[0].reader < |s.readers| {
          assert ReaderInv(s, s.readers[calls[0].reader], calls[0].reader);
        }
      }
      NothingHeldOver(t, calls[1..]);
    }
  }

  // From a stream that has just started, a leftover frame of an earlier one can be
  // the photo exactly when a reader of an earlier one still holds a frame.
  lemma LeftoverIff(s: Stream)
    requires Inv(s) && s.lastFrame.None?
    ensures !HeldOver(s) <==> forall calls :: AllReading(calls) ==> OfThisStream(s, FirstFrame(s, calls))
  {
    if HeldOver(s) {
      var r :| 0 <= r < |s.readers| && s.readers[r].held.Some? && s.readers[r].generation != s.generation;
      var calls := [Publish(r)];
      assert FirstFrame(s, calls) == Published(s, r).lastFrame;
      assert AllReading(calls) && !OfThisStream(s, FirstFrame(s, calls));
    } else {
      forall calls | AllReading(calls) ensures OfThisStream(s, FirstFrame(s, calls)) { NothingHeldOver(s, calls); }
    }
  }

  // The frame of the interrupted stream is dropped with its reader: stop() saw that
  // reader end, or it held none.
  predicate Drops(s: Stream, shot: Shot) {
    shot.joined || s.readers == [] || s.readers[|s.readers| - 1].held.None?
  }

  lemma PosingStarted(s: Stream, shot: Shot)
    requires Inv(s) && Switches(s, shot) && Poses(s, shot)
    ensures var posing := Posing(s, shot); var m := Negotiated(shot.attempt.advertised, Target(s, shot), s.fps);
            && Inv(posing) && posing.lastFrame.None? && posing.generation == s.generation + 2
            && m.Some? && posing.resolution == m.value.resolution
            && posing.readers == Stopped(s, shot.joined).readers
                                 + [Reader(posing.generation, posing.resolution, None)]
  {
    StopKeeps(s, shot.joined, []);
    StartKeeps(Stopped(s, shot.joined), Some(Target(s, shot)), None, shot.attempt);
  }

  lemma HoldsOverIff(s: Stream, joined: bool, readers: seq<Reader>, posing: Stream)
    requires Inv(s) && s.started && readers == Stopped(s, joined).readers
    requires posing.generation == s.generation + 2
    requires posing.readers == readers + [Reader(posing.generation, posing.resolution, None)]
    ensures HeldOver(posing)
            <==> HeldOver(s) || !(joined || s.readers[|s.readers| - 1].held.None?)
  {
    var n := |s.readers|;
    assert forall r :: 0 <= r < n ==> posing.readers[r] == readers[r] && ReaderInv(s, s.readers[r], r);
    if r :| 0 <= r < n && s.readers[r].held.Some? && s.readers[r].generation != s.generation {
      assert posing.readers[r] == s.readers[r];
    }
    if !joined && s.readers[n - 1].held.Some? {
      assert posing.readers[n - 1] == s.readers[n - 1];
    }
    if r :| 0 <= r <= n && posing.readers[r].held.Some? && posing.readers[r].generation != posing.generation {
      assert r < n && s.readers[r].held.Some?;
    }
  }

  lemma PosingHoldsOverIff(s: Stream, shot: Shot)
    requires Inv(s) && Switches(s, shot) && Poses(s, shot)
    ensures HeldOver(Posing(s, shot)) <==> HeldOver(s) || !Drops(s, shot)
  {
    PosingStarted(s, shot);
    HoldsOverIff(s, shot.joined, Stopped(s, shot.joined).readers, Posing(s, shot));
  }

  // A photo that needed another resolution shows the mode negotiated for it, whatever
  // the readers do meanwhile, if and only if stop() saw the interrupted reader end or
  // that reader was not decoding a frame, and no reader of an earlier stream is.
  lemma PhotoIsAtTargetIff(s: Stream, shot: Shot)
    requires Inv(s) && Switches(s, shot) && Poses(s, shot)
    ensures !HeldOver(s) && Drops(s, shot)
            <==> forall calls :: AllReading(calls) ==>
                   OfThisStream(Posing(s, shot), Photo(s, shot.(meanwhile := calls)))
    ensures var m := Negotiated(shot.attempt.advertised, Target(s, shot), s.fps);
            m.Some? && Posing(s, shot).resolution == m.value.resolution
  {
    PosingStarted(s, shot);
    PosingHoldsOverIff(s, shot);
    LeftoverIff(Posing(s, shot));
    forall calls ensures Photo(s, shot.(meanwhile := calls)) == FirstFrame(Posing(s, shot), calls) {
      assert Posing(s, shot.(meanwhile := calls)) == Posing(s, shot) && Poses(s, shot.(meanwhile := calls));
    }
  }

  // The photo is then a frame some reader took while it was waited for.
  lemma PhotoIsNew(s: Stream, shot: Shot)
    requires Inv(s) && Switches(s, shot) && Poses(s, shot) && !HeldOver(s) && Drops(s, shot)
    requires Undisturbed(shot) && Photo(s, shot).Some?
    ensures exists call :: call in shot.meanwhile && call.Take? && call.data == Photo(s, shot).value.data
  {
    PosingStarted(s, shot);
    PosingHoldsOverIff(s, shot);
    var posing := Posing(s, shot);
    forall r | 0 <= r < |posing.readers| ensures posing.readers[r].held.None? {
      assert ReaderInv(posing, posing.readers[r], r);
    }
    FrameWasTaken(posing, shot.meanwhile);
  }

  ghost predicate Holds(s: Stream, data: seq<bv8>) {
    exists r :: 0 <= r < |s.readers| && s.readers[r].held == Some(data)
  }

  lemma {:induction false} FrameWasTaken(s: Stream, calls: seq<Call>)
    requires s.lastFrame.None? && AllReading(calls) && FirstFrame(s, calls).Some?
    ensures var data := FirstFrame(s, calls).value.data;
            Holds(s, data) || exists call :: call in calls && call.Take? && call.data == data
    decreases |calls|
  {
    var t := After(s, calls[0]);
    var data := FirstFrame(s, calls).value.data;
    assert calls[0] in calls;
    if t.lastFrame.Some? {
      assert FirstFrame(s, calls) == t.lastFrame && s.readers[calls[0].reader].held == Some(data);
    } else {
      FrameWasTaken(t, calls[1..]);
      if Holds(t, data) {
        var r :| 0 <= r < |t.readers| && t.readers[r].held == Some(data);
        assert s.readers[r].held == Some(data) || (calls[0].Take? && calls[0].data == data);
      }
    }
  }

  // An explicit stop made while a photo is waited for does not last.
  lemma StopDuringPhotoIsUndone(s: Stream, shot: Shot, joined: bool)
    requires Inv(s) && Switches(s, shot) && Poses(s, shot) && Resumes(s, shot.back)
    requires shot.meanwhile == [Stop(joined)] && shot.afterwards == []
    ensures !Ran(Posing(s, shot), shot.meanwhile).started && Captured(s, shot).started
  {
    SwitchResumesIff(s, shot);
    assert Ran(Posing(s, shot), [Stop(joined)]) == Ran(Stopped(Posing(s, shot), joined), [Stop(joined)][1..]);
  }

  // A start that works on a stopped camera runs in the mode negotiated for what was
  // asked, or for the settings it has where nothing was, with no frame yet; one on a
  // running camera changes nothing.
  lemma StartTakesMode(s: Stream, resolution: string, fps: int, a: Attempt)
    requires !Running(s) && Steady(a, a.advertised) && resolution != "" && fps != 0
    ensures var t, m := Started(s, Some(resolution), Some(fps), a), Negotiated(a.advertised, resolution, fps);
            m.Some? ==> t.started && t.open && t.lastFrame == None && t.generation == s.generation + 1
                        && Mode(t.resolution, t.fps, t.pixelFormat.value) == m.value
    ensures var t, m := Started(s, None, None, a), Negotiated(a.advertised, s.resolution, s.fps);
            m.Some? ==> t.started && Mode(t.resolution, t.fps, t.pixelFormat.value) == m.value
  {}

  lemma RunningStreamStays(s: Stream, resolution: Option<string>, fps: Option<int>, a: Attempt)
    requires Running(s)
    ensures Starts(s, resolution, fps, a) && Started(s, resolution, fps, a) == s
  {}

  // A stop leaves nothing running and no frame to be taken for a new one; only a reader
  // it did not see end keeps what it holds.
  lemma StopDecides(s: Stream, joined: bool)
    ensures var t := Stopped(s, joined);
            && !t.started && !t.open && t.lastFrame == None && t.generation == s.generation + 1
            && t.resolution == s.resolution && t.fps == s.fps && t.pixelFormat == s.pixelFormat
            && |t.readers| == |s.readers|
            && forall r :: 0 <= r < |s.readers| ==>
                 t.readers[r] == if joined && Running(s) && r == |s.readers| - 1 then s.readers[r].(held := None)
                                 else s.readers[r]
  {}

  // A photo is taken at the resolution asked for, else at the widest the camera
  // advertises, else at the one it has.
  lemma TargetDecides(s: Stream, shot: Shot, asked: string, widest: string)
    requires asked != "" && widest != ""
    ensures shot.resolution == Some(asked) ==> Target(s, shot) == asked
    ensures shot.resolution == None && shot.widest == Some(widest) ==> Target(s, shot) == widest
    ensures shot.resolution == None && shot.widest == None ==> Target(s, shot) == s.resolution
  {}
}

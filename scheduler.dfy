/** `main` and its per-frame callback `frame(now)`. The state the callback
    threads through frames (`lastTime`, `lastStatsTime`, `lastPlumeTime`,
    `pipelines.frameHash`, `world.stats`, and the map states of the three
    readback buffers and the `saving` flag) is the value `Host`; `Frame` is
    one callback and `Complete` one settled map with its continuation.
    A run interleaves frames and completions in any order. The class
    `Scheduler` at the end is the imperative callback, proved to follow
    `Frame` and `Complete`. */
module Scheduler {
  import opened Js
  import opened Device
  import opened Buffers
  import opened DevPanel
  import opened Persistence

  const PLUME_PERIOD: int := 30000
  const STATS_PERIOD: int := 1000

  /** `world.initCount`, the population `main` seeds. */
  const INIT_COUNT: nat := 10000

  /** The free-list getter `main` hands to `initPersistence`: it reads
      `freeListHead` and `freeListTail`, fields the step pass object does not
      have (its cursors live in `freeListState`), so both are undefined. */
  function MainRing(): RingPtr
  {
    RingPtr(None, None)
  }

  /** What a save and a load with the getter of `main` do to the free-list
      cursors: whatever they were, the load writes back `[0, 0]`. */
  lemma MainSaveLosesCursors(bytes: seq<Byte>, frameHash: int)
    ensures SaveValue(bytes, MainRing(), frameHash).Ok?
    ensures LoadEffects(SaveValue(bytes, MainRing(), frameHash).value)
         == LoadOutcome([WriteBytes(Genomes, 0, bytes), WriteWords(FreeList, 0, [U32(0), U32(0)])], None)
  {
    LoadAfterSave(bytes, MainRing(), frameHash);
  }

  datatype Stats = Stats(aliveCount: Val, totalBiomass: Val, avgFitness: Val)

  datatype Host = Host(
    lastTime: int, lastStatsTime: int, lastPlumeTime: int,
    frameHash: int,
    stats: Stats,
    statsRead: MapState,
    resolve: MapState,
    saver: Saver,
    items: map<string, string>,
    quota: nat,
    querySet: Option<QuerySetId>,
    events: seq<Event>)

  /** The state when the first frame is requested: all three clocks at the
      start time, counter 0, stats 0, nothing mapped or saving, the seeding
      already issued. */
  function Init(start: int, quota: nat, querySet: Option<QuerySetId>): Host
  {
    Host(start, start, start, 0, Stats(Num(0.0), Num(0.0), Num(0.0)),
         Unmapped, Unmapped, Saver(false, Unmapped), map[], quota, querySet, SeedEvents(INIT_COUNT))
  }

  predicate Due(now: int, last: int, period: int)
  {
    now - last >= period
  }

  /** `(now - lastTime) * 0.001`, in seconds. */
  function Dt(now: int, last: int): real
  {
    (now - last) as real / 1000.0
  }

  /** The 32-byte params record: a fresh zeroed buffer with `dt` as float
      in word 0 and the counter, reduced by the Uint32Array store, in word 4. */
  function ParamsRecord(dt: real, hash: int): (r: seq<Word>)
    ensures |r| == 8 && r[0] == F32(dt) && r[4] == U32(ToUint32(hash))
    ensures forall i :: 0 <= i < 8 && i != 0 && i != 4 ==> r[i] == U32(0)
  {
    [F32(dt), U32(0), U32(0), U32(0), U32(ToUint32(hash)), U32(0), U32(0), U32(0)]
  }

  /** The 32-byte ArrayBuffer of `frame`, filled through its Float32Array
      view (word 0) and its Uint32Array view (word 4). */
  method NewParams(dt: real, hash: int) returns (r: seq<Word>)
    ensures r == ParamsRecord(dt, hash)
  {
    var buf := new Word[8](_ => U32(0));
    buf[0] := F32(dt);
    buf[4] := U32(ToUint32(hash));
    r := buf[..];
  }

  /** The camera matrix as the float words `writeBuffer` uploads. */
  function CameraWords(cam: seq<real>): seq<Word>
  {
    seq(|cam|, i requires 0 <= i < |cam| => F32(cam[i]))
  }

  function PlumePart(h: Host, now: int): seq<Event>
  {
    if Due(now, h.lastPlumeTime, PLUME_PERIOD) then [RunEvent(PlumePass)] else []
  }

  function StatsPart(h: Host, now: int): seq<Event>
  {
    if Due(now, h.lastStatsTime, STATS_PERIOD) then [RunEvent(StatsPass)] + ReadbackStartEvents(h.statsRead) else []
  }

  /** The three stretches of a frame: the uniform writes, the passes, and
      the host-side publish with the two readbacks it starts. */
  function UniformEvents(h: Host, now: int, cam: seq<real>): seq<Event>
  {
    [ WriteWords(ParamsBuffer, 0, ParamsRecord(Dt(now, h.lastTime), h.frameHash)),
      WriteWords(CameraBuffer, 0, CameraWords(cam)) ]
  }

  function PassEvents(h: Host, now: int): seq<Event>
  {
    PlumePart(h, now) + [RunEvent(StepPass)] + StatsPart(h, now) + [RenderEvent()]
  }

  function PublishEvents(h: Host): seq<Event>
  {
    [Audio(h.stats.totalBiomass), Hud(h.stats.aliveCount, h.stats.avgFitness)]
    + CollectEvents(h.querySet, h.resolve) + AutoSaveEvents(h.saver)
  }

  /** What one `frame(now)` issues, in order; `cam` is the camera matrix. */
  function FrameEvents(h: Host, now: int, cam: seq<real>): seq<Event>
  {
    UniformEvents(h, now, cam) + PassEvents(h, now) + PublishEvents(h)
  }

  function Frame(h: Host, now: int, cam: seq<real>): Host
  {
    var plume := Due(now, h.lastPlumeTime, PLUME_PERIOD);
    var stats := Due(now, h.lastStatsTime, STATS_PERIOD);
    h.(lastTime := now,
       lastPlumeTime := if plume then now else h.lastPlumeTime,
       lastStatsTime := if stats then now else h.lastStatsTime,
       frameHash := h.frameHash + 1,
       statsRead := if stats then AfterMapAsync(h.statsRead) else h.statsRead,
       resolve := AfterMapAsync(h.resolve),
       saver := AfterAutoSave(h.saver),
       events := h.events + FrameEvents(h, now, cam))
  }

  function UniformsStep(h: Host, now: int, cam: seq<real>): Host
  {
    h.(lastTime := now, frameHash := h.frameHash + 1, events := h.events + UniformEvents(h, now, cam))
  }

  function PassesStep(h: Host, now: int): Host
  {
    var plume := Due(now, h.lastPlumeTime, PLUME_PERIOD);
    var stats := Due(now, h.lastStatsTime, STATS_PERIOD);
    h.(lastPlumeTime := if plume then now else h.lastPlumeTime,
       lastStatsTime := if stats then now else h.lastStatsTime,
       statsRead := if stats then AfterMapAsync(h.statsRead) else h.statsRead,
       events := h.events + PassEvents(h, now))
  }

  function PublishStep(h: Host): Host
  {
    h.(resolve := AfterMapAsync(h.resolve), saver := AfterAutoSave(h.saver),
       events := h.events + PublishEvents(h))
  }

  lemma FrameSplit(h: Host, now: int, cam: seq<real>)
    ensures Frame(h, now, cam) == PublishStep(PassesStep(UniformsStep(h, now, cam), now))
  {
    var h1 := UniformsStep(h, now, cam);
    var h2 := PassesStep(h1, now);
    assert PassEvents(h1, now) == PassEvents(h, now);
    assert PublishEvents(h2) == PublishEvents(h);
    var u, q, r := UniformEvents(h, now, cam), PassEvents(h, now), PublishEvents(h);
    assert h.events + u + q + r == h.events + (u + q + r);
  }

  /** A pending map settling (`ok`: it resolved) with the bytes the device
      delivered into the mapped range. */
  datatype Completion =
    | StatsDone(ok: bool, bytes: seq<Byte>)
    | CollectDone(ok: bool, bytes: seq<Byte>)
    | SaveDone(ok: bool, bytes: seq<Byte>)

  predicate Enabled(h: Host, c: Completion)
  {
    match c
    case StatsDone(_, b) => h.statsRead == Pending && |b| == GPU_STATS_BUFFER_SIZE
    case CollectDone(_, b) => h.resolve == Pending && |b| == RESOLVE_SIZE
    case SaveDone(_, b) => h.saver.readback == Pending && |b| == GENOME_SIZE
  }

  /** The continuations: the stats callback assigns the three fields, the
      overlay gets the frame time, the save runs to its end. */
  function Complete(h: Host, c: Completion): Host
    requires Enabled(h, c)
  {
    match c
    case StatsDone(ok, b) =>
      var data := ReadbackValues(b);
      h.(statsRead := Unmapped,
         stats := if ok then Stats(data[0], data[1], Divide(data[2], 1000.0)) else h.stats,
         events := h.events + ReadSettleEvents(StatsRead, ok))
    case CollectDone(ok, b) =>
      var shown := if ok && FrameTime(b).Ok? then [Overlay(FrameTime(b).value)] else [];
      h.(resolve := Unmapped, events := h.events + ReadSettleEvents(ResolveBuffer, ok) + shown)
    case SaveDone(ok, b) =>
      var o := SaveSettle(h.saver, ok, b, MainRing(), h.frameHash, h.items, h.quota);
      h.(saver := o.saver, items := o.items, events := h.events + o.events)
  }

  datatype Input = Tick(now: int, cam: seq<real>) | Settle(c: Completion)

  /** One input; a completion whose map is not pending cannot occur and
      changes nothing. */
  function Step(h: Host, x: Input): Host
  {
    match x
    case Tick(now, cam) => Frame(h, now, cam)
    case Settle(c) => if Enabled(h, c) then Complete(h, c) else h
  }

  function Run(h: Host, xs: seq<Input>): Host
    decreases |xs|
  {
    if |xs| == 0 then h else Run(Step(h, xs[0]), xs[1..])
  }

  function Ticks(xs: seq<Input>): nat
  {
    if |xs| == 0 then 0 else (if xs[0].Tick? then 1 else 0) + Ticks(xs[1..])
  }

  // ------------------------------------------------------------- one frame

  lemma FrameCountSplit(h: Host, now: int, cam: seq<real>, e: Event)
    ensures Count(FrameEvents(h, now, cam), e)
         == Count(UniformEvents(h, now, cam), e)
          + Count(PlumePart(h, now), e) + Count([RunEvent(StepPass)], e) + Count(StatsPart(h, now), e) + Count([RenderEvent()], e)
          + Count([Audio(h.stats.totalBiomass), Hud(h.stats.aliveCount, h.stats.avgFitness)], e)
          + Count(CollectEvents(h.querySet, h.resolve), e) + Count(AutoSaveEvents(h.saver), e)
  {
    var u := UniformEvents(h, now, cam);
    var b := PlumePart(h, now);
    var c := [RunEvent(StepPass)];
    var d := StatsPart(h, now);
    var f := [RenderEvent()];
    var g := [Audio(h.stats.totalBiomass), Hud(h.stats.aliveCount, h.stats.avgFitness)];
    var k := CollectEvents(h.querySet, h.resolve);
    var l := AutoSaveEvents(h.saver);
    CountAppend(u, PassEvents(h, now), e);
    CountAppend(u + PassEvents(h, now), PublishEvents(h), e);
    CountAppend(b, c, e);
    CountAppend(b + c, d, e);
    CountAppend(b + c + d, f, e);
    CountAppend(g, k, e);
    CountAppend(g + k, l, e);
  }

  lemma Count1(a: Event, e: Event)
    ensures Count([a], e) == if a == e then 1 else 0
  {
  }

  lemma Count2(a: Event, b: Event, e: Event)
    ensures Count([a, b], e) == (if a == e then 1 else 0) + (if b == e then 1 else 0)
  {
    assert [a, b][..1] == [a];
    Count1(a, e);
  }

  lemma Count3(a: Event, b: Event, c: Event, e: Event)
    ensures Count([a, b, c], e) == (if a == e then 1 else 0) + (if b == e then 1 else 0) + (if c == e then 1 else 0)
  {
    assert [a, b, c][..2] == [a, b];
    Count2(a, b, e);
  }

  function StatsCopy(): Event
  {
    Submit([Copy(StatsBuffer, 0, StatsRead, 0, GPU_STATS_BUFFER_SIZE)])
  }

  function ResolveSubmit(h: Host): Event
  {
    Submit([ResolveQueries(h.querySet, 0, 2, ResolveBuffer, 0)])
  }

  /** How often a submitted command buffer occurs in a frame. */
  lemma FrameCount(h: Host, now: int, cam: seq<real>, e: Event)
    requires e.Submit?
    ensures Count(FrameEvents(h, now, cam), e)
         == (if e == RunEvent(StepPass) then 1 else 0) + (if e == RenderEvent() then 1 else 0)
          + (if e == RunEvent(PlumePass) && Due(now, h.lastPlumeTime, PLUME_PERIOD) then 1 else 0)
          + (if e == RunEvent(StatsPass) && Due(now, h.lastStatsTime, STATS_PERIOD) then 1 else 0)
          + (if e == StatsCopy() && Due(now, h.lastStatsTime, STATS_PERIOD) then 1 else 0)
          + (if e == ResolveSubmit(h) then 1 else 0)
          + (if e == SaveCopy() && !h.saver.saving then 1 else 0)
  {
    FrameCountSplit(h, now, cam, e);
    Count2(WriteWords(ParamsBuffer, 0, ParamsRecord(Dt(now, h.lastTime), h.frameHash)),
           WriteWords(CameraBuffer, 0, CameraWords(cam)), e);
    Count1(RunEvent(StepPass), e);
    Count1(RenderEvent(), e);
    Count2(Audio(h.stats.totalBiomass), Hud(h.stats.aliveCount, h.stats.avgFitness), e);
    Count2(ResolveSubmit(h), MapRequested(ResolveBuffer, h.resolve == Unmapped), e);
    if h.saver.saving {
      assert AutoSaveEvents(h.saver) == [];
    } else {
      Count2(SaveCopy(), MapRequested(SaveReadback, h.saver.readback == Unmapped), e);
    }
    if Due(now, h.lastPlumeTime, PLUME_PERIOD) {
      Count1(RunEvent(PlumePass), e);
    } else {
      assert PlumePart(h, now) == [];
    }
    if Due(now, h.lastStatsTime, STATS_PERIOD) {
      assert StatsPart(h, now) == [RunEvent(StatsPass), StatsCopy(), MapRequested(StatsRead, h.statsRead == Unmapped)];
      Count3(RunEvent(StatsPass), StatsCopy(), MapRequested(StatsRead, h.statsRead == Unmapped), e);
    } else {
      assert StatsPart(h, now) == [];
    }
  }

  /** Every frame submits the step pass exactly once and the render pass
      exactly once; the plume pass once when 30 s have passed since the
      last one and never otherwise; the stats pass likewise every second. */
  lemma FrameCounts(h: Host, now: int, cam: seq<real>)
    ensures Count(FrameEvents(h, now, cam), RunEvent(StepPass)) == 1
    ensures Count(FrameEvents(h, now, cam), RenderEvent()) == 1
    ensures Count(FrameEvents(h, now, cam), RunEvent(PlumePass)) == if Due(now, h.lastPlumeTime, PLUME_PERIOD) then 1 else 0
    ensures Count(FrameEvents(h, now, cam), RunEvent(StatsPass)) == if Due(now, h.lastStatsTime, STATS_PERIOD) then 1 else 0
  {
    PassesDistinct(StepPass, PlumePass);
    PassesDistinct(StepPass, StatsPass);
    PassesDistinct(PlumePass, StatsPass);
    forall p: Pass ensures RunEvent(p) != StatsCopy() && RunEvent(p) != ResolveSubmit(h) && RunEvent(p) != SaveCopy() {
      assert RunEvent(p).ops[0].Dispatch?;
    }
    assert RenderEvent().ops[0].Draw?;
    FrameCount(h, now, cam, RunEvent(StepPass));
    FrameCount(h, now, cam, RenderEvent());
    FrameCount(h, now, cam, RunEvent(PlumePass));
    FrameCount(h, now, cam, RunEvent(StatsPass));
  }

  /** The order inside a frame: params, camera, plume (when due) before the
      step, step before the stats pass and readback (when due), then render,
      then the audio and HUD publish, then the telemetry collect; the
      auto-save, when not blocked, comes last. */
  lemma FrameOrder(h: Host, now: int, cam: seq<real>)
    ensures var es := FrameEvents(h, now, cam);
            var p := if Due(now, h.lastPlumeTime, PLUME_PERIOD) then 1 else 0;
            var s := if Due(now, h.lastStatsTime, STATS_PERIOD) then 3 else 0;
            |es| == 8 + p + s + (if h.saver.saving then 0 else 2) &&
            es[0] == WriteWords(ParamsBuffer, 0, ParamsRecord(Dt(now, h.lastTime), h.frameHash)) &&
            es[1] == WriteWords(CameraBuffer, 0, CameraWords(cam)) &&
            (p == 1 ==> es[2] == RunEvent(PlumePass)) &&
            es[2 + p] == RunEvent(StepPass) &&
            (s == 3 ==> es[3 + p] == RunEvent(StatsPass) &&
                        es[4 + p] == Submit([Copy(StatsBuffer, 0, StatsRead, 0, GPU_STATS_BUFFER_SIZE)]) &&
                        es[5 + p] == MapRequested(StatsRead, h.statsRead == Unmapped)) &&
            es[3 + p + s] == RenderEvent() &&
            es[4 + p + s] == Audio(h.stats.totalBiomass) &&
            es[5 + p + s] == Hud(h.stats.aliveCount, h.stats.avgFitness) &&
            es[6 + p + s] == Submit([ResolveQueries(h.querySet, 0, 2, ResolveBuffer, 0)]) &&
            es[7 + p + s] == MapRequested(ResolveBuffer, h.resolve == Unmapped) &&
            (!h.saver.saving ==> es[8 + p + s] == Submit([Copy(Genomes, 0, SaveReadback, 0, GENOME_SIZE)]))
  {
  }

  /** The counter and clocks after a frame: `frameHash` goes up by exactly
      one, and each cadence clock moves to `now` exactly when its pass ran. */
  lemma FrameClocks(h: Host, now: int, cam: seq<real>)
    ensures Frame(h, now, cam).frameHash == h.frameHash + 1
    ensures Frame(h, now, cam).lastTime == now
    ensures Frame(h, now, cam).lastPlumeTime == if now - h.lastPlumeTime >= 30000 then now else h.lastPlumeTime
    ensures Frame(h, now, cam).lastStatsTime == if now - h.lastStatsTime >= 1000 then now else h.lastStatsTime
    ensures Frame(h, now, cam).stats == h.stats
  {
  }

  // ------------------------------------------------------------------ runs

  /** The events a completion appends issue no command. */
  lemma CompleteAppends(h: Host, c: Completion)
    requires Enabled(h, c)
    ensures |Complete(h, c).events| >= |h.events|
    ensures Complete(h, c).events[..|h.events|] == h.events
    ensures forall i :: |h.events| <= i < |Complete(h, c).events| ==> !Complete(h, c).events[i].Submit?
  {
    match c
    case StatsDone(ok, b) =>
    case CollectDone(ok, b) =>
    case SaveDone(ok, b) =>
      var o := SaveSettle(h.saver, ok, b, MainRing(), h.frameHash, h.items, h.quota);
      assert forall i :: 0 <= i < |o.events| ==> !o.events[i].Submit?;
  }

  lemma CompleteCount(h: Host, c: Completion, e: Event)
    requires Enabled(h, c) && e.Submit?
    ensures Count(Complete(h, c).events, e) == Count(h.events, e)
  {
    CompleteAppends(h, c);
    var es := Complete(h, c).events;
    var tail := es[|h.events|..];
    assert es == h.events + tail;
    CountAppend(h.events, tail, e);
    CountAbsent(tail, e);
  }

  /** Over any run, the step and render passes are each submitted once per
      frame, and the counter rises by the number of frames. */
  lemma {:induction false} RunCounts(h: Host, xs: seq<Input>)
    ensures Count(Run(h, xs).events, RunEvent(StepPass)) == Count(h.events, RunEvent(StepPass)) + Ticks(xs)
    ensures Count(Run(h, xs).events, RenderEvent()) == Count(h.events, RenderEvent()) + Ticks(xs)
    ensures Run(h, xs).frameHash == h.frameHash + Ticks(xs)
    decreases |xs|
  {
    if |xs| > 0 {
      var h1 := Step(h, xs[0]);
      match xs[0] {
        case Tick(now, cam) =>
          FrameCounts(h, now, cam);
          CountAppend(h.events, FrameEvents(h, now, cam), RunEvent(StepPass));
          CountAppend(h.events, FrameEvents(h, now, cam), RenderEvent());
        case Settle(c) =>
          if Enabled(h, c) {
            CompleteCount(h, c, RunEvent(StepPass));
            CompleteCount(h, c, RenderEvent());
          }
      }
      RunCounts(h1, xs[1..]);
    }
  }

  /** The last time pass `p` ran, and how often it may run. */
  function LastRun(h: Host, p: Pass): int
  {
    if p == PlumePass then h.lastPlumeTime else h.lastStatsTime
  }

  function Period(p: Pass): int
  {
    if p == PlumePass then PLUME_PERIOD else STATS_PERIOD
  }

  predicate TicksBy(xs: seq<Input>, bound: int)
  {
    forall i :: 0 <= i < |xs| && xs[i].Tick? ==> xs[i].now <= bound
  }

  lemma CadenceFrame(h: Host, now: int, cam: seq<real>, p: Pass, start: int, bound: int)
    requires p != StepPass
    requires Count(h.events, RunEvent(p)) * Period(p) <= LastRun(h, p) - start
    requires LastRun(h, p) <= bound && now <= bound
    ensures Count(Frame(h, now, cam).events, RunEvent(p)) * Period(p) <= LastRun(Frame(h, now, cam), p) - start
    ensures LastRun(Frame(h, now, cam), p) <= bound
  {
    FrameCounts(h, now, cam);
    CountAppend(h.events, FrameEvents(h, now, cam), RunEvent(p));
    var n := Count(h.events, RunEvent(p));
    var due := Due(now, LastRun(h, p), Period(p));
    assert Count(Frame(h, now, cam).events, RunEvent(p)) == n + (if due then 1 else 0);
    assert LastRun(Frame(h, now, cam), p) == if due then now else LastRun(h, p);
    if due {
      assert (n + 1) * Period(p) == n * Period(p) + Period(p);
    }
  }

  lemma {:induction false} CadenceInvariant(h: Host, xs: seq<Input>, p: Pass, start: int, bound: int)
    requires p != StepPass
    requires Count(h.events, RunEvent(p)) * Period(p) <= LastRun(h, p) - start
    requires LastRun(h, p) <= bound && TicksBy(xs, bound)
    ensures Count(Run(h, xs).events, RunEvent(p)) * Period(p) <= LastRun(Run(h, xs), p) - start
    ensures LastRun(Run(h, xs), p) <= bound
    decreases |xs|
  {
    if |xs| > 0 {
      match xs[0] {
        case Tick(now, cam) =>
          assert xs[0].now <= bound;
          CadenceFrame(h, now, cam, p, start, bound);
        case Settle(c) =>
          if Enabled(h, c) {
            CompleteCount(h, c, RunEvent(p));
          }
      }
      assert TicksBy(xs[1..], bound) by {
        forall i | 0 <= i < |xs[1..]| && xs[1..][i].Tick? ensures xs[1..][i].now <= bound {
          assert xs[1..][i] == xs[i + 1];
        }
      }
      CadenceInvariant(Step(h, xs[0]), xs[1..], p, start, bound);
    }
  }

  /** Cadence bounds: over any run whose frames all fall within `t` ms of the
      start, the plume pass runs at most floor(t / 30000) times and the stats
      pass at most floor(t / 1000) times, however the frames are spaced. */
  lemma CadenceBound(start: int, quota: nat, qs: Option<QuerySetId>, xs: seq<Input>, t: int)
    requires t >= 0 && TicksBy(xs, start + t)
    ensures Count(Run(Init(start, quota, qs), xs).events, RunEvent(PlumePass)) <= t / 30000
    ensures Count(Run(Init(start, quota, qs), xs).events, RunEvent(StatsPass)) <= t / 1000
  {
    var h := Init(start, quota, qs);
    forall p: Pass | p != StepPass ensures Count(h.events, RunEvent(p)) == 0 {
      CountAbsent(h.events, RunEvent(p));
    }
    CadenceInvariant(h, xs, PlumePass, start, start + t);
    CadenceInvariant(h, xs, StatsPass, start, start + t);
    var n := Count(Run(h, xs).events, RunEvent(PlumePass));
    var m := Count(Run(h, xs).events, RunEvent(StatsPass));
    assert n * 30000 <= t;
    assert m * 1000 <= t;
  }

  // ------------------------------------------------------------- save flag

  /** While no save is in flight the readback buffer is unmapped. */
  predicate SaverConsistent(h: Host)
  {
    !h.saver.saving ==> h.saver.readback == Unmapped
  }

  lemma {:induction false} RunKeepsSaverConsistent(h: Host, xs: seq<Input>)
    requires SaverConsistent(h)
    ensures SaverConsistent(Run(h, xs))
    decreases |xs|
  {
    if |xs| > 0 {
      if xs[0].Settle? && xs[0].c.SaveDone? && Enabled(h, xs[0].c) {
        var c := xs[0].c;
        SaveSettleCases(h.saver, c.ok, c.bytes, MainRing(), h.frameHash, h.items, h.quota);
      }
      RunKeepsSaverConsistent(Step(h, xs[0]), xs[1..]);
    }
  }

  function SaveCopy(): Event
  {
    Submit([Copy(Genomes, 0, SaveReadback, 0, GENOME_SIZE)])
  }

  /** A frame starts a save whenever none is in flight: there is no
      time-based limit, so the first frame after a save settles starts the
      next one. */
  lemma NoRateLimit(h: Host, now: int, cam: seq<real>)
    requires SaverConsistent(h) && !h.saver.saving
    ensures Frame(h, now, cam).saver == Saver(true, Pending)
    ensures FrameEvents(h, now, cam)[|FrameEvents(h, now, cam)| - 2..]
         == [SaveCopy(), MapRequested(SaveReadback, true)]
  {
  }

  /** Once `saving` is set and the readback is no longer pending (its map
      was rejected, or `setItem` threw and it stays mapped), nothing clears
      it: every later `autoSave` returns at once, no copy is submitted and
      the store never changes again. */
  lemma {:induction false} StuckSaving(h: Host, xs: seq<Input>)
    requires h.saver.saving && h.saver.readback != Pending
    ensures Run(h, xs).saver == h.saver && Run(h, xs).items == h.items
    ensures Count(Run(h, xs).events, SaveCopy()) == Count(h.events, SaveCopy())
    decreases |xs|
  {
    if |xs| > 0 {
      match xs[0] {
        case Tick(now, cam) =>
          FrameCount(h, now, cam, SaveCopy());
          forall p: Pass ensures RunEvent(p) != SaveCopy() {
            assert RunEvent(p).ops[0].Dispatch?;
          }
          assert RenderEvent().ops[0].Draw? && ResolveSubmit(h).ops[0].ResolveQueries?;
          assert StatsCopy().ops[0].src == StatsBuffer;
          CountAppend(h.events, FrameEvents(h, now, cam), SaveCopy());
        case Settle(c) =>
          if Enabled(h, c) {
            CompleteCount(h, c, SaveCopy());
          }
      }
      StuckSaving(Step(h, xs[0]), xs[1..]);
    }
  }

  /** The two ways in: a save whose map is rejected, and a save whose
      `setItem` throws, both leave the flag set with nothing pending. */
  lemma SaveFailureSticks(h: Host, bytes: seq<Byte>)
    requires SaverConsistent(h) && Enabled(h, SaveDone(false, bytes))
    ensures Complete(h, SaveDone(false, bytes)).saver == Saver(true, Unmapped)
    ensures SaveValue(bytes, MainRing(), h.frameHash).Ok?
    ensures Enabled(h, SaveDone(true, bytes)) &&
            !Fits(SAVE_KEY, SaveValue(bytes, MainRing(), h.frameHash).value, h.quota) ==>
            Complete(h, SaveDone(true, bytes)).saver == Saver(true, Mapped)
  {
    SaveValueOk(bytes, MainRing(), h.frameHash);
  }

  // --------------------------------------------------------- readback data

  /** A stats readback that resolves assigns the values it read from the
      detached word view: undefined counts and a NaN fitness. */
  lemma StatsCallback(h: Host, bytes: seq<Byte>)
    requires Enabled(h, StatsDone(true, bytes))
    ensures Complete(h, StatsDone(true, bytes)).stats == Stats(Undefined, Undefined, NaN)
    ensures Complete(h, StatsDone(true, bytes)).statsRead == Unmapped
  {
  }

  /** Frames publish only the stats last applied by a callback: what audio
      and HUD get in a frame is `h.stats`, never the device buffer. */
  lemma PublishLastApplied(h: Host, now: int, cam: seq<real>)
    ensures Audio(h.stats.totalBiomass) in FrameEvents(h, now, cam)
    ensures Hud(h.stats.aliveCount, h.stats.avgFitness) in FrameEvents(h, now, cam)
    ensures Frame(h, now, cam).stats == h.stats
  {
    FrameOrder(h, now, cam);
  }

  /** "mapAsync while pending" is reachable: two frames one second apart
      with no completion between them request the stats map and the
      telemetry map twice, and the second requests are rejected. */
  lemma PendingMapRejected(start: int, quota: nat, qs: Option<QuerySetId>, cam: seq<real>)
    ensures var h := Run(Init(start, quota, qs), [Tick(start + 1000, cam), Tick(start + 2000, cam)]);
            MapRequested(StatsRead, false) in h.events &&
            MapRequested(ResolveBuffer, false) in h.events &&
            h.statsRead == Pending && h.resolve == Pending
  {
    var h0 := Init(start, quota, qs);
    var h1 := Frame(h0, start + 1000, cam);
    var h2 := Frame(h1, start + 2000, cam);
    var xs := [Tick(start + 1000, cam), Tick(start + 2000, cam)];
    assert xs[1..] == [Tick(start + 2000, cam)];
    assert xs[1..][1..] == [];
    assert Run(h0, xs) == Run(h1, xs[1..]);
    assert Run(h1, xs[1..]) == Run(h2, []);
    FrameOrder(h1, start + 2000, cam);
    var es := FrameEvents(h1, start + 2000, cam);
    assert h2.events == h1.events + es;
    assert es[5] == MapRequested(StatsRead, false);
    assert es[10] == MapRequested(ResolveBuffer, false);
    assert h2.events[|h1.events| + 5] == MapRequested(StatsRead, false);
    assert h2.events[|h1.events| + 10] == MapRequested(ResolveBuffer, false);
  }

  // ------------------------------------------------------------- the host

  /** `main` and its closure: the three clocks and the world stats are the
      variables `frame` updates; the device objects are the ones `main`
      initialises. */
  class Scheduler {
    var lastTime: int
    var lastStatsTime: int
    var lastPlumeTime: int
    var stats: Stats
    const tl: Timeline
    const pipelines: Pipelines
    const dev: Panel
    const persist: Persistence
    const stagingState: MappableBuffer
    const stagingGen: MappableBuffer

    ghost predicate Valid()
      reads this, pipelines, pipelines.statsRead, dev, dev.resolveBuffer, persist, persist.readback
    {
      pipelines.tl == tl && dev.tl == tl && persist.tl == tl &&
      pipelines.Valid() && dev.Valid() && persist.Valid() &&
      pipelines.statsRead != dev.resolveBuffer && pipelines.statsRead != persist.readback &&
      dev.resolveBuffer != persist.readback
    }

    ghost function Model(): Host
      reads this, pipelines, pipelines.statsRead, dev, dev.resolveBuffer, persist, persist.readback, persist.store, tl
    {
      Host(lastTime, lastStatsTime, lastPlumeTime, pipelines.frameHash, stats,
           pipelines.statsRead.state, dev.resolveBuffer.state, persist.Model(),
           persist.store.items, persist.store.quota, dev.querySet, tl.events)
    }

    /** `main` up to the first `requestAnimationFrame`: device objects, the
        seeding, persistence over a store with `quota` bytes, the dev panel
        over `querySet` (absent without timestamp queries), the clocks at
        `start`. */
    constructor (start: int, quota: nat, querySet: Option<QuerySetId>)
      ensures Valid() && Model() == Init(start, quota, querySet)
    {
      var t := new Timeline();
      var p := new Pipelines(t);
      var sa, sg := p.SeedInitialPopulation(INIT_COUNT);
      var store := new Store(quota);
      var ps := new Persistence(t, store);
      var d := new Panel(t, querySet);
      tl := t;
      pipelines := p;
      persist := ps;
      dev := d;
      stagingState := sa;
      stagingGen := sg;
      lastTime := start;
      lastStatsTime := start;
      lastPlumeTime := start;
      stats := Stats(Num(0.0), Num(0.0), Num(0.0));
    }

    /** `frame(now)` with the camera matrix `cam`. */
    method Tick(now: int, cam: seq<real>)
      requires Valid()
      modifies this, pipelines, pipelines.statsRead, dev.resolveBuffer, persist, persist.readback, tl
      ensures Valid()
      ensures Model() == Frame(old(Model()), now, cam)
    {
      FrameSplit(Model(), now, cam);
      WriteUniforms(now, cam);
      RunPasses(now);
      Publish();
    }

    /** The params record and the camera matrix, written to their uniform
        buffers; the counter is read into the record, then incremented. */
    method WriteUniforms(now: int, cam: seq<real>)
      requires Valid()
      modifies this, pipelines, tl
      ensures Valid()
      ensures Model() == UniformsStep(old(Model()), now, cam)
    {
      ghost var h := Model();
      var dt := Dt(now, lastTime);
      lastTime := now;
      var buf := NewParams(dt, pipelines.frameHash);
      pipelines.frameHash := pipelines.frameHash + 1;
      tl.Append(WriteWords(ParamsBuffer, 0, buf));
      tl.Append(WriteWords(CameraBuffer, 0, CameraWords(cam)));
      assert tl.events == h.events + UniformEvents(h, now, cam);
    }

    /** The plume pass when due, the step, the stats pass and its readback
        when due, the render. */
    method RunPasses(now: int)
      requires Valid()
      modifies this, pipelines.statsRead, tl
      ensures Valid()
      ensures Model() == PassesStep(old(Model()), now)
    {
      ghost var h := Model();
      PlumeIfDue(now);
      pipelines.Run(StepPass);
      StatsIfDue(now);
      pipelines.RenderRun();
      assert tl.events == h.events + PassEvents(h, now);
    }

    /** The plume pass, when its period has elapsed. */
    method PlumeIfDue(now: int)
      requires Valid()
      modifies this, tl
      ensures Valid()
      ensures Model() == old(Model()).(lastPlumeTime := if Due(now, old(lastPlumeTime), PLUME_PERIOD) then now else old(lastPlumeTime),
                                      events := old(tl.events) + PlumePart(old(Model()), now))
    {
      if now - lastPlumeTime >= PLUME_PERIOD {
        pipelines.Run(PlumePass);
        lastPlumeTime := now;
      }
    }

    /** The stats pass and the start of its readback, when its period has elapsed. */
    method StatsIfDue(now: int)
      requires Valid()
      modifies this, pipelines.statsRead, tl
      ensures Valid()
      ensures Model() == old(Model()).(lastStatsTime := if Due(now, old(lastStatsTime), STATS_PERIOD) then now else old(lastStatsTime),
                                      statsRead := if Due(now, old(lastStatsTime), STATS_PERIOD) then AfterMapAsync(old(pipelines.statsRead.state))
                                                   else old(pipelines.statsRead.state),
                                      events := old(tl.events) + StatsPart(old(Model()), now))
    {
      if now - lastStatsTime >= STATS_PERIOD {
        pipelines.Run(StatsPass);
        var accepted := pipelines.ReadbackStart();
        lastStatsTime := now;
      }
    }

    /** Audio and HUD get the last applied stats, then the telemetry
        collect and the auto-save are started. */
    method Publish()
      requires Valid()
      modifies dev.resolveBuffer, persist, persist.readback, tl
      ensures Valid()
      ensures Model() == PublishStep(old(Model()))
    {
      tl.Append(Audio(stats.totalBiomass));
      tl.Append(Hud(stats.aliveCount, stats.avgFitness));
      var collecting := dev.Collect();
      var started := persist.AutoSave();
    }

    /** The stats readback settles and its `.then` assigns the world stats. */
    method StatsSettled(ok: bool, bytes: seq<Byte>)
      requires Valid() && pipelines.statsRead.state == Pending && |bytes| == GPU_STATS_BUFFER_SIZE
      modifies this, pipelines.statsRead, tl
      ensures Valid()
      ensures Model() == Complete(old(Model()), StatsDone(ok, bytes))
    {
      var data := pipelines.ReadbackSettle(ok, bytes);
      if data.Some? {
        var d := data.value;
        stats := Stats(d[0], d[1], Divide(d[2], 1000.0));
      }
    }

    /** The telemetry collect settles and its `.then` sets the overlay. */
    method CollectSettled(ok: bool, bytes: seq<Byte>)
      requires Valid() && dev.resolveBuffer.state == Pending && |bytes| == RESOLVE_SIZE
      modifies dev.resolveBuffer, tl
      ensures Valid()
      ensures Model() == Complete(old(Model()), CollectDone(ok, bytes))
    {
      var times := dev.CollectSettle(ok, bytes);
      if times.Some? {
        tl.Append(Overlay(times.value));
      }
    }

    /** The auto-save readback settles; the two getters of `main` are read
        at this point. */
    method SaveSettled(ok: bool, bytes: seq<Byte>)
      requires Valid() && persist.readback.state == Pending && |bytes| == GENOME_SIZE
      modifies persist, persist.readback, persist.store, tl
      ensures Valid()
      ensures Model() == Complete(old(Model()), SaveDone(ok, bytes))
    {
      persist.AutoSaveSettle(ok, bytes, MainRing(), pipelines.frameHash);
    }
  }
}

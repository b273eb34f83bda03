/** `initGPU`: the buffer layout, the bind groups that wire buffers to the
    four pipelines, the pass runners, the stats readback and the seeding of
    the initial population. Pipelines, shader modules and layouts are opaque
    identifiers; what a pass runs on the device is not modelled. */
module Buffers {
  import opened Js
  import opened Device

  // The constants of the configuration module.
  const MAX_AGENTS: nat := 131072
  const WORKGROUP_SIZE: nat := 256
  const ENV_TEXTURE_SIZE: nat := 2048
  const GPU_STATS_BUFFER_SIZE: nat := 16

  /** Bytes per agent: 8 floats of state, 12 floats of genome. */
  const STATE_STRIDE: nat := 32
  const GENOME_STRIDE: nat := 48

  /** The `size` each buffer is created with, in bytes. `SaveReadback` is
      created by the persistence module, `ResolveBuffer` by the dev panel. */
  function BufferSize(b: BufferId): nat
  {
    match b
    case ParamsBuffer => 32
    case CameraBuffer => 64
    case StateA => MAX_AGENTS * 32
    case StateB => MAX_AGENTS * 32
    case Genomes => MAX_AGENTS * 48
    case FreeList => 8
    case FreeIds => MAX_AGENTS * 4
    case StatsBuffer => GPU_STATS_BUFFER_SIZE
    case StatsRead => GPU_STATS_BUFFER_SIZE
    case SaveReadback => MAX_AGENTS * 12 * 4
    case ResolveBuffer => 16
    case StagingState(n) => n * 32
    case StagingGen(n) => n * 48
  }

  /** The params record is 8 words, the camera a 4x4 float matrix, a state
      slot 8 words and a genome 12, the free list two u32 cursors, `freeIds`
      one u32 per agent, and the stats buffer holds at least three u32. */
  lemma Layout()
    ensures BufferSize(ParamsBuffer) == 8 * 4 && BufferSize(CameraBuffer) == 16 * 4
    ensures BufferSize(StateA) == BufferSize(StateB) == MAX_AGENTS * STATE_STRIDE
    ensures STATE_STRIDE == 8 * 4 && GENOME_STRIDE == 12 * 4
    ensures BufferSize(Genomes) == MAX_AGENTS * GENOME_STRIDE
    ensures BufferSize(FreeList) == 2 * 4 && BufferSize(FreeIds) == MAX_AGENTS * 4
    ensures BufferSize(StatsBuffer) == BufferSize(StatsRead) == GPU_STATS_BUFFER_SIZE == 16 >= 3 * 4
    ensures BufferSize(SaveReadback) == BufferSize(Genomes)
  {
  }

  /** The seeding copies fit into `stateA` and `genomes` exactly when the
      count does not exceed MAX_AGENTS; the code does not check this. */
  lemma SeedCopiesFit(count: nat)
    ensures count * STATE_STRIDE <= BufferSize(StateA) <==> count <= MAX_AGENTS
    ensures count * GENOME_STRIDE <= BufferSize(Genomes) <==> count <= MAX_AGENTS
  {
    if count > MAX_AGENTS {
      assert count * 32 >= (MAX_AGENTS + 1) * 32;
      assert count * 48 >= (MAX_AGENTS + 1) * 48;
    } else {
      assert count * 32 <= MAX_AGENTS * 32;
      assert count * 48 <= MAX_AGENTS * 48;
    }
  }

  /** `Math.ceil(a / b)` on integers. */
  function CeilDiv(a: nat, b: nat): (r: nat)
    requires b > 0
    ensures r * b >= a
    ensures r > 0 ==> (r - 1) * b < a
  {
    if a == 0 then 0 else 1 + CeilDiv(if a <= b then 0 else a - b, b)
  }

  function WgCount(): nat
  {
    CeilDiv(MAX_AGENTS, WORKGROUP_SIZE)
  }

  const PLUME_GROUPS: nat := ENV_TEXTURE_SIZE / 16

  /** The agent passes launch enough workgroups to cover every slot, and the
      plume pass tiles the environment texture with 16x16 workgroups. */
  lemma DispatchSizes()
    ensures WgCount() * WORKGROUP_SIZE >= MAX_AGENTS
    ensures WgCount() == 512
    ensures PLUME_GROUPS * 16 == ENV_TEXTURE_SIZE && PLUME_GROUPS == 128
  {
    var w := WgCount();
    assert (w - 1) * 256 < 131072 <= w * 256;
  }

  // ------------------------------------------------------------ bind groups

  datatype Resource = BufferResource(buffer: BufferId) | TextureView(texture: TextureId) | DefaultSampler

  /** The binding type its layout entry declares. */
  datatype Access =
    | ReadOnlyStorage | ReadWriteStorage | UniformBuffer
    | FilteringSampler | FloatTexture | WriteOnlyStorageTexture

  datatype Binding = Binding(slot: nat, resource: Resource, access: Access)

  /** Each bind group's entries, paired with the entry of its layout that
      has the same binding number. */
  function Group(g: GroupId): seq<Binding>
  {
    match g
    case StepGroup =>
      [ Binding(0, BufferResource(StateA), ReadOnlyStorage),
        Binding(1, BufferResource(StateB), ReadWriteStorage),
        Binding(2, BufferResource(Genomes), ReadOnlyStorage),
        Binding(3, BufferResource(FreeList), ReadWriteStorage),
        Binding(4, BufferResource(ParamsBuffer), UniformBuffer),
        Binding(5, DefaultSampler, FilteringSampler),
        Binding(6, TextureView(EnvA), FloatTexture),
        Binding(7, BufferResource(FreeIds), ReadWriteStorage) ]
    case PlumeGroup =>
      [ Binding(0, BufferResource(ParamsBuffer), UniformBuffer),
        Binding(1, TextureView(EnvA), WriteOnlyStorageTexture) ]
    case StatsGroup =>
      [ Binding(0, BufferResource(StateA), ReadWriteStorage),
        Binding(1, BufferResource(StatsBuffer), ReadWriteStorage),
        Binding(2, BufferResource(FreeList), ReadWriteStorage) ]
    case RenderGroup =>
      [ Binding(0, BufferResource(StateA), ReadOnlyStorage),
        Binding(1, BufferResource(CameraBuffer), UniformBuffer) ]
  }

  /** The access with which `bs` binds `r`, if it binds it. */
  function AccessTo(bs: seq<Binding>, r: Resource): (a: Option<Access>)
    ensures a.Some? <==> exists i :: 0 <= i < |bs| && bs[i].resource == r
    ensures a.Some? ==> exists i :: 0 <= i < |bs| && bs[i].resource == r && bs[i].access == a.value
  {
    if |bs| == 0 then None
    else if bs[0].resource == r then Some(bs[0].access)
    else
      var a := AccessTo(bs[1..], r);
      assert forall i :: 1 <= i < |bs| ==> bs[i] == bs[1..][i - 1];
      a
  }

  /** The step pass reads `stateA` and writes `stateB`, and samples `envA`. */
  lemma StepWiring()
    ensures Group(StepGroup)[0] == Binding(0, BufferResource(StateA), ReadOnlyStorage)
    ensures Group(StepGroup)[1] == Binding(1, BufferResource(StateB), ReadWriteStorage)
    ensures AccessTo(Group(StepGroup), TextureView(EnvA)) == Some(FloatTexture)
  {
  }

  /** Stats and render see only `stateA`; render reads it without writing. */
  lemma ReadersSeeStateA()
    ensures AccessTo(Group(StatsGroup), BufferResource(StateA)).Some?
    ensures AccessTo(Group(StatsGroup), BufferResource(StateB)).None?
    ensures AccessTo(Group(RenderGroup), BufferResource(StateA)) == Some(ReadOnlyStorage)
    ensures AccessTo(Group(RenderGroup), BufferResource(StateB)).None?
  {
  }

  /** Plume writes `envA`, the texture the step pass samples; `envB` is
      bound nowhere. The groups are constants, so no pass ever sees the
      environment textures or the two state buffers swapped. */
  lemma EnvironmentWiring(g: GroupId)
    ensures AccessTo(Group(PlumeGroup), TextureView(EnvA)) == Some(WriteOnlyStorageTexture)
    ensures AccessTo(Group(g), TextureView(EnvB)).None?
  {
  }

  // ---------------------------------------------------------------- passes

  datatype Pass = StepPass | PlumePass | StatsPass

  /** The one dispatch each runner encodes: its pipeline, its fixed bind
      group at index 0, and its workgroup counts. */
  function Dispatched(p: Pass): EncoderOp
  {
    match p
    case StepPass => Dispatch(StepPipeline, StepGroup, WgCount(), 1)
    case PlumePass => Dispatch(PlumePipeline, PlumeGroup, PLUME_GROUPS, PLUME_GROUPS)
    case StatsPass => Dispatch(StatsPipeline, StatsGroup, WgCount(), 1)
  }

  function RunEvent(p: Pass): Event
  {
    Submit([Dispatched(p)])
  }

  /** `render.run`: one draw of 6 vertices for every one of MAX_AGENTS
      instances, whatever the number of live agents. */
  function RenderEvent(): Event
  {
    Submit([Draw(RenderPipeline, RenderGroup, 6, MAX_AGENTS)])
  }

  /** The three passes and render are four different submissions: no two
      runners issue the same command. */
  lemma PassesDistinct(p: Pass, q: Pass)
    ensures RunEvent(p) == RunEvent(q) <==> p == q
    ensures RunEvent(p) != RenderEvent()
  {
    if RunEvent(p) == RunEvent(q) {
      assert RunEvent(p).ops[0] == RunEvent(q).ops[0];
    }
  }

  /** The start of `statsPass.readback`: the copy into `statsRead` is
      submitted whatever the buffer's state, then the map is requested. */
  function ReadbackStartEvents(m: MapState): seq<Event>
  {
    [ Submit([Copy(StatsBuffer, 0, StatsRead, 0, GPU_STATS_BUFFER_SIZE)]),
      MapRequested(StatsRead, m == Unmapped) ]
  }

  /** The three words the readback returns: the Uint32Array is built while
      mapped but indexed after `unmap`, so it reads a detached range. */
  function ReadbackValues(range: seq<Byte>): (r: seq<Val>)
    requires |range| == GPU_STATS_BUFFER_SIZE
    ensures r == [Undefined, Undefined, Undefined]
  {
    var v := Detach(View(Lanes(range, 4), false));
    [At(v, 0), At(v, 1), At(v, 2)]
  }

  // -------------------------------------------------------------- seeding

  /** Word `j` of the staged state: slot `j / 8` gets two random numbers,
      an initial energy of 0.1 and five zeros. */
  function StateWord(j: nat, rnd: seq<real>): real
    requires 2 * (j / 8) + 1 < |rnd|
  {
    if j % 8 == 0 then rnd[2 * (j / 8)]
    else if j % 8 == 1 then rnd[2 * (j / 8) + 1]
    else if j % 8 == 2 then 0.1
    else 0.0
  }

  /** The per-slot reading of `StateWord`. */
  lemma StateSlot(i: nat, k: nat, rnd: seq<real>)
    requires k < 8 && 2 * i + 1 < |rnd|
    ensures (8 * i + k) / 8 == i && (8 * i + k) % 8 == k
    ensures StateWord(8 * i + k, rnd) == if k == 0 then rnd[2 * i] else if k == 1 then rnd[2 * i + 1] else if k == 2 then 0.1 else 0.0
  {
  }

  /** The messages of `seedInitialPopulation(count)` in order: two staging
      maps requested, then one command buffer with both copies and the
      cursor pair `[count, count]` for offset 0 of `freeList`. */
  function SeedEvents(count: nat): seq<Event>
  {
    [ MapRequested(StagingState(count), true),
      MapRequested(StagingGen(count), true),
      Submit([ Copy(StagingState(count), 0, StateA, 0, count * 32),
               Copy(StagingGen(count), 0, Genomes, 0, count * 48),
               EncoderWrite(FreeList, 0, [U32(ToUint32(count)), U32(ToUint32(count))]) ]) ]
  }

  /** The staging state loop over a Float32Array of the mapped range: for
      every slot i < count it writes words 8i .. 8i+7 and nothing beyond. */
  method FillState(s: array<real>, count: nat, rnd: seq<real>)
    requires s.Length >= 8 * count && |rnd| >= 2 * count
    modifies s
    ensures forall j :: 0 <= j < 8 * count ==> s[j] == StateWord(j, rnd)
    ensures forall j :: 8 * count <= j < s.Length ==> s[j] == old(s[j])
  {
    var i := 0;
    while i < count
      invariant 0 <= i <= count
      invariant forall j :: 0 <= j < 8 * i ==> s[j] == StateWord(j, rnd)
      invariant forall j :: 8 * i <= j < s.Length ==> s[j] == old(s[j])
    {
      var b := i * 8;
      s[b + 0] := rnd[2 * i];
      s[b + 1] := rnd[2 * i + 1];
      s[b + 2] := 0.1;
      s[b + 3] := 0.0;
      s[b + 4] := 0.0;
      s[b + 5] := 0.0;
      s[b + 6] := 0.0;
      s[b + 7] := 0.0;
      forall j | b <= j < b + 8 ensures s[j] == StateWord(j, rnd) {
        StateSlot(i, j - b, rnd);
      }
      i := i + 1;
    }
  }

  /** The staging genome loop: words 0 .. 12*count-1 take one random number each. */
  method FillGenomes(g: array<real>, count: nat, rnd: seq<real>)
    requires g.Length >= 12 * count && |rnd| >= 12 * count
    modifies g
    ensures forall j :: 0 <= j < 12 * count ==> g[j] == rnd[j]
    ensures forall j :: 12 * count <= j < g.Length ==> g[j] == old(g[j])
  {
    var i := 0;
    while i < count * 12
      invariant 0 <= i <= count * 12
      invariant forall j :: 0 <= j < i ==> g[j] == rnd[j]
      invariant forall j :: i <= j < g.Length ==> g[j] == old(g[j])
    {
      g[i] := rnd[i];
      i := i + 1;
    }
  }

  /** `pipelines`: the frame counter, the free-list cursors and the runners. */
  class Pipelines {
    var frameHash: int
    var head: nat
    var tail: nat
    const tl: Timeline
    const statsRead: MappableBuffer

    ghost predicate Valid()
      reads this, statsRead
    {
      statsRead.tl == tl && statsRead.id == StatsRead && statsRead.size == GPU_STATS_BUFFER_SIZE
    }

    constructor (tl: Timeline)
      ensures Valid() && this.tl == tl && fresh(statsRead) && statsRead.state == Unmapped
      ensures frameHash == 0 && head == 0 && tail == 0
    {
      this.tl := tl;
      frameHash := 0;
      head := 0;
      tail := 0;
      statsRead := new MappableBuffer(tl, StatsRead, GPU_STATS_BUFFER_SIZE);
    }

    /** A runner made by `makeComputeRunner`: one command buffer, one dispatch. */
    method Run(p: Pass)
      modifies tl
      ensures tl.events == old(tl.events) + [RunEvent(p)]
    {
      tl.Append(Submit([Dispatched(p)]));
    }

    method RenderRun()
      modifies tl
      ensures tl.events == old(tl.events) + [RenderEvent()]
    {
      tl.Append(Submit([Draw(RenderPipeline, RenderGroup, 6, MAX_AGENTS)]));
    }

    /** The synchronous part of `statsPass.readback()`, up to its `await`. */
    method ReadbackStart() returns (accepted: bool)
      requires Valid()
      modifies tl, statsRead
      ensures accepted <==> old(statsRead.state) == Unmapped
      ensures statsRead.state == AfterMapAsync(old(statsRead.state))
      ensures tl.events == old(tl.events) + ReadbackStartEvents(old(statsRead.state))
    {
      tl.Append(Submit([Copy(StatsBuffer, 0, StatsRead, 0, GPU_STATS_BUFFER_SIZE)]));
      accepted := statsRead.MapAsync();
    }

    /** The rest of `readback()` once its map settles: `None` when the
        promise rejects. */
    method ReadbackSettle(ok: bool, bytes: seq<Byte>) returns (data: Option<seq<Val>>)
      requires Valid() && statsRead.state == Pending && |bytes| == GPU_STATS_BUFFER_SIZE
      modifies tl, statsRead
      ensures statsRead.state == Unmapped
      ensures data == if ok then Some(ReadbackValues(bytes)) else None
      ensures tl.events == old(tl.events) + ReadSettleEvents(StatsRead, ok)
    {
      statsRead.Settle(ok, bytes);
      if ok {
        var range := statsRead.GetMappedRange();
        var view := View(Lanes(range, 4), false);
        statsRead.Unmap();
        view := Detach(view);
        data := Some([At(view, 0), At(view, 1), At(view, 2)]);
      } else {
        data := None;
      }
    }

    /** `seedInitialPopulation(count)` up to its return; the two fills run
        later, when the staging maps resolve. */
    method SeedInitialPopulation(count: nat) returns (stagingState: MappableBuffer, stagingGen: MappableBuffer)
      modifies this, tl
      ensures fresh(stagingState) && fresh(stagingGen)
      ensures stagingState.tl == tl && stagingState.id == StagingState(count)
      ensures stagingState.size == count * 32 && stagingState.state == Pending
      ensures stagingGen.tl == tl && stagingGen.id == StagingGen(count)
      ensures stagingGen.size == count * 48 && stagingGen.state == Pending
      ensures head == count && tail == count && frameHash == old(frameHash)
      ensures tl.events == old(tl.events) + SeedEvents(count)
    {
      stagingState := new MappableBuffer(tl, StagingState(count), count * 32);
      stagingGen := new MappableBuffer(tl, StagingGen(count), count * 48);
      var a := stagingState.MapAsync();
      var b := stagingGen.MapAsync();
      var ptr := [U32(ToUint32(count)), U32(ToUint32(count))];
      tl.Append(Submit([ Copy(StagingState(count), 0, StateA, 0, count * 32),
                         Copy(StagingGen(count), 0, Genomes, 0, count * 48),
                         EncoderWrite(FreeList, 0, ptr) ]));
      head := count;
      tail := count;
    }

    /** The continuation of the state staging map: fill the zeroed mapped
        range, then unmap. */
    method StagingStateMapped(buf: MappableBuffer, count: nat, rnd: seq<real>) returns (s: array<real>)
      requires buf.tl == tl && buf.id == StagingState(count) && buf.size == count * 32 && buf.state == Pending
      requires |rnd| >= 2 * count
      modifies buf, tl
      ensures fresh(s) && s.Length == 8 * count
      ensures forall j :: 0 <= j < s.Length ==> s[j] == StateWord(j, rnd)
      ensures buf.state == Unmapped
      ensures tl.events == old(tl.events) + ReadSettleEvents(buf.id, true)
    {
      buf.Settle(true, seq(count * 32, _ => 0));
      s := new real[count * 8](_ => 0.0);
      FillState(s, count, rnd);
      buf.Unmap();
    }

    /** The continuation of the genome staging map. */
    method StagingGenMapped(buf: MappableBuffer, count: nat, rnd: seq<real>) returns (g: array<real>)
      requires buf.tl == tl && buf.id == StagingGen(count) && buf.size == count * 48 && buf.state == Pending
      requires |rnd| >= 12 * count
      modifies buf, tl
      ensures fresh(g) && g.Length == 12 * count
      ensures forall j :: 0 <= j < g.Length ==> g[j] == rnd[j]
      ensures buf.state == Unmapped
      ensures tl.events == old(tl.events) + ReadSettleEvents(buf.id, true)
    {
      buf.Settle(true, seq(count * 48, _ => 0));
      g := new real[count * 12](_ => 0.0);
      FillGenomes(g, count, rnd);
      buf.Unmap();
    }
  }
}

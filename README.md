# CivGrowth orchestration core, modelled in Dafny

CivGrowth is a browser artificial-life simulation built on WebGPU. The
agents live in GPU storage buffers and a compute shader steps them. The
TypeScript host does the orchestration:

- it creates the buffers, textures, bind groups and pipelines;
- it seeds the first population through two staging buffers;
- each animation frame it writes two uniforms, submits the compute passes
  and the render pass, and starts three asynchronous readbacks.

The three readbacks are:

- the stats reduction, which feeds the HUD and the audio;
- the timestamp telemetry of the dev panel;
- the periodic auto-save of the genome buffer to `localStorage`, as a
  base64 envelope around JSON.

The kernels are not visible to the host and are not modelled. The device is
an append-only timeline of what the host issues: queue writes, command
buffers, map requests and map settles. The host-side effects (audio, HUD,
overlay, storage) sit on the same timeline.

## What is proved

The project proves four groups of properties.

**Frame scheduling** (`Scheduler`):

- every frame submits the step pass once and the render pass once, and the
  step comes first;
- the plume pass runs in a frame exactly when 30 s have passed since it last
  ran, and always before the step;
- the stats pass and its readback run exactly when 1 s has passed;
- `frameHash` rises by one per frame, and the params record carries the old
  value reduced modulo 2^32;
- over any interleaving of frames and completions whose frames all fall
  within `t` ms of the start, the plume pass runs at most ⌊t/30000⌋ times
  and the stats pass at most ⌊t/1000⌋ times.

**Readback channels** (`Device.MappableBuffer`, `Buffers.Pipelines`,
`DevPanel.Panel`, `Persistence.Persistence`):

- buffer map states follow the WebGPU `mapState` machine. `mapAsync` on a
  buffer that is not "unmapped" is rejected, and the state then stays as it
  was;
- only the auto-save is guarded, by its `saving` flag. Stats and telemetry
  are not, so two frames one second apart with no completion between them
  produce a rejected stats map and a rejected telemetry map;
- the stats callback and the telemetry both read a typed array that `unmap`
  has already detached. The callback therefore sets `aliveCount` and
  `totalBiomass` to undefined and `avgFitness` to NaN, and the frame time is
  NaN;
- the `saving` flag is cleared only by a save that goes through to
  `setItem`. A rejected map, or a `setItem` that throws, leaves it set for
  good, and no later save is ever started;
- there is no time-based rate limit: whenever no save is in flight, the next
  frame starts one.

**Save envelope** (`Base64`, `Json`, `Persistence`):

- `btoa`/`atob` follow RFC 4648 section 4 and the WHATWG forgiving-base64
  decode, and decoding inverts encoding;
- the JSON text of the envelope parses back to the same value;
- loading a saved value writes back exactly the genome bytes that were read,
  and then the free-list cursors;
- with the getter `main` passes, both cursors are undefined: they are
  omitted from the JSON, and the load writes `[0, 0]`;
- the load never checks `schema`;
- an envelope without `genomes` is rejected before anything is written;
- an envelope without `ringPtr` writes the genomes and then throws.

**Layout and seeding** (`Buffers`):

- buffer sizes and strides;
- dispatch sizes (512 workgroups of 256 cover `MAX_AGENTS`; the plume grid
  is 128 × 128);
- bind-group wiring (step reads stateA and writes stateB; stats and render
  bind stateA and never stateB; envB is bound nowhere);
- the two seeding loops fill exactly the staged agents with the pattern the
  source writes.

The imperative parts of the source are classes with `modifies` clauses:

- the frame callback and its closure variables (`Scheduler.Scheduler`);
- the readback buffers (`Device.MappableBuffer`);
- the pipelines object (`Buffers.Pipelines`);
- the persistence closure and `localStorage` (`Persistence.Persistence`,
  `Persistence.Store`);
- the dev panel (`DevPanel.Panel`).

The seeding loops are methods over arrays. Each class's methods are proved
against a pure function of its state. The pure `Scheduler.Host` model
(`Frame`, `Complete`, `Run`) is what the run-level lemmas are about.

Browser inputs are parameters:

- `performance.now()` and the `requestAnimationFrame` timestamps are the
  `now` of each `Tick`;
- `Math.random()` is a sequence `rnd` of reals;
- the camera matrix is a sequence of reals;
- what the device delivers into a mapped range is the `bytes` of a
  completion;
- the order in which promises settle is the order of a run's inputs.

## Model

| member | source | states |
|---|---|---|
| Js.Divide | src/main.ts:100 | dividing undefined or NaN gives NaN; dividing a number gives a number that times the divisor is the dividend |
| Js.Detach | src/gpu/buffers.ts:232 | after `unmap` detaches a view, every index reads undefined |
| Js.ToUint32 | src/main.ts:74 | a Uint32Array store keeps the value modulo 2^32: below 2^32, congruent to the input, the input itself when already in range |
| Base64.IndexSymbol | src/storage/persistence.ts:30 | every sextet's symbol decodes back to it, and is neither `=` nor whitespace |
| Base64.Sextets | src/storage/persistence.ts:30 | the sextet count is 0, 2 or 3 modulo 4 as the byte count is 0, 1 or 2 modulo 3; non-empty for non-empty input |
| Base64.SextetsLength | src/storage/persistence.ts:30 | exactly `4 * ⌊n/3⌋` sextets for `n` bytes, plus 2 or 3 for a final 1 or 2 bytes |
| Base64.Symbols | src/storage/persistence.ts:30 | one symbol per sextet, and the alphabet lookup of each symbol gives its sextet back |
| Base64.Decode | src/storage/persistence.ts:41-42 | no ensures; the forgiving-base64 decode, specified by DecodeEncode, AtobRejectsLength and AtobBtoa |
| Base64.Btoa | src/storage/persistence.ts:30-35 | no ensures; specified by AtobBtoa, BytesThroughLatin1 and EncodeAlphabet |
| Base64.Encode | src/storage/persistence.ts:30 | the encoding is padded to a multiple of 4 characters |
| Base64.RemoveWhitespace | src/storage/persistence.ts:41 | stripping ASCII whitespace never lengthens the input, leaves no whitespace, and keeps only characters of the input; with RemoveWhitespaceAppend and RemoveWhitespaceChar the result is exactly the input's non-whitespace characters, in order |
| Base64.RemoveWhitespaceAppend | src/storage/persistence.ts:41 | stripping whitespace distributes over concatenation, so it works character by character and keeps order |
| Base64.RemoveWhitespaceChar | src/storage/persistence.ts:41 | one character is kept exactly when it is not ASCII whitespace |
| Base64.ToSextets | src/storage/persistence.ts:41 | the lookup succeeds exactly when every character is in the alphabet, and then yields each character's sextet in order |
| Base64.FromCharCodes | src/storage/persistence.ts:30 | `String.fromCharCode` over bytes gives a Latin-1 string of the same length |
| Base64.CharCodes | src/storage/persistence.ts:42 | `charCodeAt(0)` per character of a Latin-1 string gives one byte per character |
| Base64.Atob | src/storage/persistence.ts:41-42 | whatever `atob` returns is Latin-1 |
| Base64.FromSextetsSextets | src/storage/persistence.ts:30 | packing the sextets of some bytes gives those bytes back |
| Base64.ToSextetsSymbols | src/storage/persistence.ts:41 | looking up the symbols of some sextets gives those sextets back |
| Base64.NoWhitespaceUnchanged | src/storage/persistence.ts:41 | a string without ASCII whitespace passes the whitespace step unchanged |
| Base64.DecodeEncode | src/storage/persistence.ts:30-42 | forgiving-base64 decode of the RFC 4648 encoding returns the bytes |
| Base64.CharCodesFromCharCodes | src/storage/persistence.ts:30-42 | bytes to characters and back gives the bytes |
| Base64.FromCharCodesCharCodes | src/storage/persistence.ts:30-42 | a Latin-1 string to bytes and back gives the string |
| Base64.AtobRejectsLength | src/storage/persistence.ts:42 | `atob` rejects a whitespace-free input whose length is 1 modulo 4 with InvalidCharacterError |
| Base64.AtobBtoa | src/storage/persistence.ts:35-41 | `btoa` accepts every Latin-1 string, and `atob` inverts it |
| Base64.BytesThroughLatin1 | src/storage/persistence.ts:30-42 | `btoa(fromCharCode(bytes))` is the encoding of the bytes, and `atob` plus `charCodeAt` yields them again |
| Base64.EncodeAlphabet | src/storage/persistence.ts:30 | every character of an encoding is `=` or in the alphabet |
| Json.Stringify | src/storage/persistence.ts:35 | no ensures; `JSON.stringify` on the subset, specified by ParseOfStringify and StringifyLatin1 |
| Json.Parse | src/storage/persistence.ts:41 | no ensures; `JSON.parse` on the subset, specified by ParseOfStringify |
| Json.NatText | src/storage/persistence.ts:35 | a number's text is non-empty, all digits, and has a leading zero only for 0 |
| Json.DigitSpan | src/storage/persistence.ts:41 | the digit run is maximal: all digits up to it, a non-digit or the end after it |
| Json.ParseMagnitude | src/storage/persistence.ts:41 | a parsed digit run consumes input; what it reads is pinned by ParseNatText and ParseNatRest |
| Json.ParseUnsigned | src/storage/persistence.ts:41 | a parsed number consumes input; what it reads is pinned by ParseNatRest and ParseNonNegative |
| Json.ParseNumber | src/storage/persistence.ts:41 | a parsed signed number consumes input; what it reads is pinned by ParseNonNegative, ParseNegative and ParseIntText |
| Json.ParseStringBody | src/storage/persistence.ts:41 | a parsed string body consumes input; what it reads is pinned by ParseEscapeChar, ParseEscaped and ParseQuote |
| Json.ParseValue | src/storage/persistence.ts:41 | a parsed value consumes input; what it reads is pinned by ParseStringify |
| Json.ParseObject | src/storage/persistence.ts:41 | a parsed object consumes input; what it reads is pinned by ParseObjectOpen and ParseStringify |
| Json.ParseMembers | src/storage/persistence.ts:41 | a parsed member list consumes input; what it reads is pinned by ParseMemberStep and ParseMembersText |
| Json.Property | src/storage/persistence.ts:42-45 | a found property is the value of the object's last member with that key; missing exactly when no member has the key or the value is not an object |
| Json.LastWithKey | src/storage/persistence.ts:42-45 | the lookup finds the last member with that key, and fails only when none has it |
| Json.DigitSpanAll | src/storage/persistence.ts:41 | the digit run of digits followed by a non-digit is exactly those digits |
| Json.DigitsValueNatText | src/storage/persistence.ts:35-41 | reading a number's decimal text gives the number |
| Json.ParseNatText | src/storage/persistence.ts:35-41 | parsing a natural number's text stops at the first non-digit with that number |
| Json.ParseNatRest | src/storage/persistence.ts:35-41 | an unsigned number's text followed by a terminator parses to it |
| Json.ParseNonNegative | src/storage/persistence.ts:35-41 | a non-negative number's text parses to it |
| Json.ParseNegative | src/storage/persistence.ts:35-41 | a minus sign and a number's text parse to its negation |
| Json.ParseIntText | src/storage/persistence.ts:35-41 | `JSON.stringify` of an integer parses back to it |
| Json.HexDigitValue | src/storage/persistence.ts:35-41 | a hex digit written for a `\u` escape reads back as its value |
| Json.ParseEscapeChar | src/storage/persistence.ts:35-41 | each escaped character reads back as that character |
| Json.ParseEscaped | src/storage/persistence.ts:35-41 | an escaped string body and its closing quote read back as the string |
| Json.ParseQuote | src/storage/persistence.ts:35-41 | a quoted string parses back as that string |
| Json.ParseObjectOpen | src/storage/persistence.ts:41 | an object whose first member key opens parses as its member list |
| Json.ParseStringify | src/storage/persistence.ts:35-41 | any value's text, before a terminator, parses back to the value |
| Json.ParseMemberStep | src/storage/persistence.ts:35-41 | one `"key":value` member parses and the list carries on after it |
| Json.MembersTextSplit | src/storage/persistence.ts:35 | a member list's text is its first member and then the rest |
| Json.ParseMembersText | src/storage/persistence.ts:35-41 | a member list's text parses back to those members, in order |
| Json.ParseOfStringify | src/storage/persistence.ts:35-41 | `JSON.parse(JSON.stringify(v))` is `v` |
| Device.AfterMapAsync | src/gpu/buffers.ts:230 | no ensures; the map state after `mapAsync`, specified by MappableBuffer.MapAsync and PendingMapRejected |
| Device.Lanes | src/dev/devpanel.ts:15-17 | a `BigUint64Array` or `Uint32Array` view over a range has one element per `width` bytes; the range must split into whole lanes, as the constructor throws RangeError otherwise |
| Device.Timeline.constructor | src/gpu/buffers.ts:13-19 | the device starts with nothing issued |
| Device.Timeline.Append | src/gpu/buffers.ts:208 | issuing appends exactly that command |
| Device.MappableBuffer.constructor | src/gpu/buffers.ts:83-86 | a created buffer is unmapped |
| Device.MappableBuffer.MapAsync | src/gpu/buffers.ts:230 | `mapAsync` succeeds only from unmapped (then pending); otherwise it is rejected and the state is kept |
| Device.MappableBuffer.Settle | src/gpu/buffers.ts:230 | a pending map settles mapped with the delivered bytes, or back to unmapped |
| Device.MappableBuffer.GetMappedRange | src/gpu/buffers.ts:231 | the mapped range is what the device delivered |
| Device.MappableBuffer.Unmap | src/gpu/buffers.ts:232 | `unmap` returns the buffer to unmapped |
| Buffers.BufferSize | src/gpu/buffers.ts:34-86 | no ensures; the size each buffer is created with, specified by Layout and SeedCopiesFit |
| Buffers.Group | src/gpu/buffers.ts:163-197 | no ensures; each bind group's entries, specified by AccessTo, StepWiring, ReadersSeeStateA and EnvironmentWiring |
| Buffers.SeedEvents | src/gpu/buffers.ts:256-300 | no ensures; the seeding messages, specified by Pipelines.SeedInitialPopulation |
| Buffers.Layout | src/gpu/buffers.ts:34-86 | buffer sizes: params 32, camera 64, state 32 per agent, genomes 48 per agent, free list 8, free ids 4 per agent, stats 16, save readback the size of the genome buffer |
| Buffers.SeedCopiesFit | src/gpu/buffers.ts:292-293 | the seeding copies fit their destinations exactly when `count` is at most `MAX_AGENTS` |
| Buffers.CeilDiv | src/gpu/buffers.ts:212 | `Math.ceil(a / b)` is the least multiple count that covers `a` |
| Buffers.DispatchSizes | src/gpu/buffers.ts:212-223 | 512 workgroups of 256 cover every agent; the plume grid is 128 × 128 tiles of 16 |
| Buffers.AccessTo | src/gpu/buffers.ts:163-197 | a group reaches a resource exactly when some entry binds it, and then with that entry's access |
| Buffers.StepWiring | src/gpu/buffers.ts:110-121 | the step group reads stateA, writes stateB, and samples envA |
| Buffers.ReadersSeeStateA | src/gpu/buffers.ts:128-197 | stats and render bind stateA and never stateB; render only reads it |
| Buffers.EnvironmentWiring | src/gpu/buffers.ts:122-182 | the plume pass writes envA; no group binds envB |
| Buffers.PassesDistinct | src/gpu/buffers.ts:200-254 | each pass submits its own dispatch, and none is the render |
| Buffers.ReadbackValues | src/gpu/buffers.ts:231-233 | reading after `unmap` gives three undefined values |
| Buffers.StateSlot | src/gpu/buffers.ts:270-278 | slot `k` of agent `i` is the two random coordinates, 0.1, or 0 |
| Buffers.FillState | src/gpu/buffers.ts:268-279 | the state loop writes exactly the first `count` agents' 8 floats in that pattern, and nothing else |
| Buffers.FillGenomes | src/gpu/buffers.ts:284-287 | the genome loop writes exactly the first `count * 12` floats from the random stream, and nothing else |
| Buffers.Pipelines.constructor | src/gpu/buffers.ts:83-86 | the stats readback buffer is created unmapped; `frameHash` starts at 0 |
| Buffers.Pipelines.Run | src/gpu/buffers.ts:200-210 | running a pass submits one command buffer with its dispatch |
| Buffers.Pipelines.RenderRun | src/gpu/buffers.ts:236-254 | the render submits one draw of 6 vertices × `MAX_AGENTS` instances |
| Buffers.Pipelines.ReadbackStart | src/gpu/buffers.ts:226-230 | the copy is submitted, then the map is requested; no guard |
| Buffers.Pipelines.ReadbackSettle | src/gpu/buffers.ts:230-233 | the settled readback unmaps before reading, so it resolves with undefined values |
| Buffers.Pipelines.SeedInitialPopulation | src/gpu/buffers.ts:256-300 | two staging buffers pending; both copies and the cursor write in one submit; head = tail = `count` |
| Buffers.Pipelines.StagingStateMapped | src/gpu/buffers.ts:267-281 | the state staging is filled in the seeding pattern and unmapped |
| Buffers.Pipelines.StagingGenMapped | src/gpu/buffers.ts:283-289 | the genome staging is filled from the random stream and unmapped |
| DevPanel.CollectEvents | src/dev/devpanel.ts:10-14 | no ensures; the messages of `collect()` before its `await`, specified by Panel.Collect and PendingMapRejected |
| DevPanel.Elapsed | src/dev/devpanel.ts:19 | `Number(b - a) * 1e-6`: a number when both are numbers, NaN for two undefined values, TypeError for a mix |
| DevPanel.FrameTime | src/dev/devpanel.ts:15-20 | the frame time read after `unmap` is NaN |
| DevPanel.ElapsedSign | src/dev/devpanel.ts:15-19 | on an attached view the frame time is negative exactly when the second timestamp is smaller |
| DevPanel.Panel.constructor | src/dev/devpanel.ts:1-7 | the resolve buffer is created unmapped |
| DevPanel.Panel.Collect | src/dev/devpanel.ts:10-14 | resolve submitted, then the map requested; no guard |
| DevPanel.Panel.CollectSettle | src/dev/devpanel.ts:14-20 | the settled collect unmaps, then yields the NaN frame time |
| Persistence.Latin1Concat | src/storage/persistence.ts:35 | a concatenation is Latin-1 exactly when both parts are |
| Persistence.EscapeLatin1 | src/storage/persistence.ts:35 | JSON escaping keeps a string Latin-1 |
| Persistence.IntTextLatin1 | src/storage/persistence.ts:35 | number text is Latin-1 |
| Persistence.QuoteLatin1 | src/storage/persistence.ts:35 | quoting keeps a string Latin-1 |
| Persistence.StringifyLatin1 | src/storage/persistence.ts:35 | JSON text of Latin-1 values is Latin-1, so the outer `btoa` cannot throw |
| Persistence.MembersTextLatin1 | src/storage/persistence.ts:35 | members of Latin-1 values give Latin-1 text |
| Persistence.EncodeLatin1 | src/storage/persistence.ts:30 | base64 text is Latin-1 |
| Persistence.RingLatin1 | src/storage/persistence.ts:31 | the cursor object is Latin-1 |
| Persistence.SaveJsonLatin1 | src/storage/persistence.ts:28-34 | the whole envelope object is Latin-1 |
| Persistence.SaveValue | src/storage/persistence.ts:28-35 | no ensures; the stored `evo-save` value, specified by SaveValueOk and LoadAfterSave |
| Persistence.SaveValueOk | src/storage/persistence.ts:28-35 | both `btoa` calls succeed, and the stored value is the double encoding of the envelope |
| Persistence.Uint32Of | src/storage/persistence.ts:45 | each Uint32Array element is below 2^32; undefined and an object give 0, a number is reduced modulo 2^32 |
| Persistence.RingLookup | src/storage/persistence.ts:31-45 | `ringPtr.head` and `ringPtr.tail` read back as saved, undefined when omitted |
| Persistence.SaveJsonLookup | src/storage/persistence.ts:28-45 | `genomes` and `ringPtr` read back from the envelope as saved |
| Persistence.LoadAfterSave | src/storage/persistence.ts:18-47 | loading what a save stored rewrites exactly the saved genome bytes and the cursors, and succeeds |
| Persistence.LoadEffects | src/storage/persistence.ts:40-47 | no ensures; what `load` writes and throws, specified by LoadAfterSave, LoadReadsTwoKeys, LoadWithoutGenomes and LoadWithoutRingPtr |
| Persistence.LoadReadsTwoKeys | src/storage/persistence.ts:40-47 | no schema check: envelopes agreeing on `genomes` and `ringPtr` load alike |
| Persistence.AtobUndefined | src/storage/persistence.ts:42 | `atob` of the text of a missing property, `"undefined"`, throws InvalidCharacterError |
| Persistence.LoadWithoutGenomes | src/storage/persistence.ts:41-42 | a missing `genomes` makes the load reject with InvalidCharacterError before any write |
| Persistence.LoadWithoutRingPtr | src/storage/persistence.ts:42-46 | a missing `ringPtr` writes the genomes, then throws TypeError, and the free list is not written |
| Persistence.Store.constructor | src/storage/persistence.ts:35 | the store starts empty with its quota |
| Persistence.Store.SetItem | src/storage/persistence.ts:35 | `setItem` stores the item exactly when it fits, otherwise throws and changes nothing |
| Persistence.AutoSaveEvents | src/storage/persistence.ts:18-25 | no ensures; what `autoSave()` issues before its `await`, specified by Persistence.AutoSave, NoRateLimit and StuckSaving |
| Persistence.SaveSettle | src/storage/persistence.ts:25-37 | no ensures; the continuation of `autoSave()`, specified by SaveSettleCases and SaveFailureSticks |
| Persistence.SaveSettleCases | src/storage/persistence.ts:18-38 | a settled save either stores the envelope of the mapped bytes and clears `saving`, or leaves `saving` set with nothing pending; cleared exactly when the map resolved and the item fit |
| Persistence.Persistence.constructor | src/storage/persistence.ts:11-17 | the readback buffer is created unmapped and `saving` is false |
| Persistence.Persistence.AutoSave | src/storage/persistence.ts:18-25 | a save starts exactly when none is in flight: the copy is submitted and the map requested; otherwise nothing happens |
| Persistence.Persistence.AutoSaveSettle | src/storage/persistence.ts:25-37 | the continuation after `await` does what `SaveSettle` says |
| Persistence.Persistence.Load | src/storage/persistence.ts:40-47 | `load` issues the writes of `LoadEffects` and rejects with its exception |
| Scheduler.MainRing | src/main.ts:38 | no ensures; the free-list getter's value, specified by MainSaveLosesCursors |
| Scheduler.Init | src/main.ts:11-63 | no ensures; the host state at the first frame, specified by Scheduler.constructor and CadenceInvariant |
| Scheduler.Frame | src/main.ts:65-121 | no ensures; one frame, specified by FrameSplit, FrameCounts, FrameOrder and FrameClocks |
| Scheduler.Complete | src/main.ts:97-115 | no ensures; the three continuations (stats, overlay, and the save continuation of persistence.ts), specified by CompleteAppends, CompleteCount, StatsCallback and SaveFailureSticks |
| Scheduler.Step | src/main.ts:120 | no ensures; one frame or one completion, specified through Run |
| Scheduler.Run | src/main.ts:120-124 | no ensures; any interleaving of frames and completions, specified by RunCounts, CadenceBound, RunKeepsSaverConsistent and StuckSaving |
| Scheduler.MainSaveLosesCursors | src/main.ts:34-40 | with the getter `main` passes, a save and a load reset the free list to `[0, 0]` |
| Scheduler.ParamsRecord | src/main.ts:70-74 | the params record is `dt` in word 0, the counter modulo 2^32 in word 4, zero elsewhere |
| Scheduler.NewParams | src/main.ts:70-74 | the freshly allocated params array holds exactly `ParamsRecord` |
| Scheduler.FrameSplit | src/main.ts:65-121 | a frame is its uniform writes, then its passes, then its publish and readbacks |
| Scheduler.FrameCountSplit | src/main.ts:65-121 | a frame's event count is the sum over its stretches |
| Scheduler.FrameCount | src/main.ts:85-118 | for each submitted command, how many times a frame issues it: the step and the render once, each due pass once, the stats copy when stats are due, the resolve once, the save copy when no save is in flight |
| Scheduler.FrameCounts | src/main.ts:85-106 | one step and one render per frame; plume once when 30 s have passed, else never; stats once when 1 s has passed, else never |
| Scheduler.FrameOrder | src/main.ts:65-118 | the order: params, camera, plume, step, stats and its readback, render, audio, HUD, collect, then the save when none is in flight |
| Scheduler.FrameClocks | src/main.ts:66-102 | the counter rises by one; each clock moves to `now` exactly when its pass ran; the stats are untouched |
| Scheduler.CompleteAppends | src/main.ts:97-115 | a completion only appends events, none of them a submit |
| Scheduler.CompleteCount | src/main.ts:97-115 | a completion adds no submitted command |
| Scheduler.RunCounts | src/main.ts:65-121 | over any run: one step and one render per frame, and the counter equals the number of frames |
| Scheduler.CadenceFrame | src/main.ts:85-103 | one frame keeps a pass's count within its elapsed time over its period |
| Scheduler.CadenceInvariant | src/main.ts:85-103 | the count bound and the clock bound hold along any run |
| Scheduler.CadenceBound | src/main.ts:61-103 | within `t` ms of the start: at most ⌊t/30000⌋ plume passes and ⌊t/1000⌋ stats passes |
| Scheduler.RunKeepsSaverConsistent | src/storage/persistence.ts:17-38 | along any run, the save readback is unmapped whenever no save is in flight |
| Scheduler.NoRateLimit | src/main.ts:118 | with no save in flight, the next frame starts one; there is no time limit |
| Scheduler.StuckSaving | src/storage/persistence.ts:18-38 | once `saving` is stuck, no later run starts a save or changes the store |
| Scheduler.SaveFailureSticks | src/storage/persistence.ts:25-37 | a rejected save map leaves `saving` set and unmapped; a `setItem` that does not fit leaves it set and mapped |
| Scheduler.StatsCallback | src/main.ts:97-101 | the stats callback sets the counts to undefined and the fitness to NaN |
| Scheduler.PublishLastApplied | src/main.ts:108-114 | audio and HUD get the stats last applied; the frame does not change them |
| Scheduler.PendingMapRejected | src/main.ts:95-115 | two frames 1 s apart without a completion: the second stats and collect maps are rejected while pending |
| Scheduler.Scheduler.constructor | src/main.ts:11-63 | `main`'s setup is the initial host state: seeding issued, clocks at the start, counter and stats 0 |
| Scheduler.Scheduler.Tick | src/main.ts:65-121 | `frame(now)` has exactly the effect of `Frame` |
| Scheduler.Scheduler.WriteUniforms | src/main.ts:66-83 | the uniform writes, with the counter read and then incremented |
| Scheduler.Scheduler.RunPasses | src/main.ts:85-106 | the passes and the two clocks, as `PassesStep` |
| Scheduler.Scheduler.PlumeIfDue | src/main.ts:86-89 | the plume pass runs and its clock moves to `now` exactly when 30 s have passed |
| Scheduler.Scheduler.StatsIfDue | src/main.ts:95-103 | the stats pass runs, its readback map starts and its clock moves to `now` exactly when 1 s has passed |
| Scheduler.Scheduler.Publish | src/main.ts:108-118 | audio, HUD, collect and auto-save, as `PublishStep` |
| Scheduler.Scheduler.StatsSettled | src/main.ts:97-101 | the stats continuation, as `Complete` |
| Scheduler.Scheduler.CollectSettled | src/main.ts:115 | the telemetry continuation and the overlay update, as `Complete` |
| Scheduler.Scheduler.SaveSettled | src/main.ts:38-39 | the save continuation with `main`'s getters read at that point, as `Complete` |

## Left out

- Floating point: `dt`, the 1e-6 scale and Float32 stores are exact reals; `fps` (`Math.round(1 / dt)`) is not modelled, and NaN arithmetic appears only where the source produces it.
- Number formatting: `JSON.stringify` of integers is modelled; fractions, exponents and |n| ≥ 1e21 are not needed by the envelope.
- The JSON model covers the envelope's subset: integers, strings and objects, without insignificant whitespace, `null`, booleans or arrays. A duplicate key takes the last value, as `JSON.parse` does.
- Json.UnicodeEscape: a `\u` escape naming a surrogate half (`\uD800` to `\uDFFF`) is rejected, while `JSON.parse` accepts it as a lone UTF-16 code unit.
- Json.ParseNumber: integers are read exactly; `JSON.parse` rounds to the nearest double above 2^53, so a crafted cursor such as `9007199254740993` reaches ToUint32 with a different value in the source.
- Persistence.LoadEffects: valid JSON outside the subset (a fraction such as `"head":1.5`, `null`, `true`, an array, whitespace) makes the model reject with SyntaxError before any write, whereas `load` goes on and writes (for `1.5`, the cursor 1).
- Persistence.Uint32Of: a string cursor is converted only in its plain-digit form; other numeric strings give 0 instead of their value.
- Persistence.Fits: the `localStorage` quota is counted per item in UTF-16 code units of key and value, not across the whole origin.
- The camera (`Camera`, listeners, `getMatrix`), audio (`initAudio`, `updateAudio`) and the Svelte HUD and overlay are opaque; they appear only as the values handed to them.
- Canvas, context configuration, `resize` and the ResizeObserver are not modelled.
- `String.fromCharCode(...bytes)` is treated as one call; the engine limit on spread arguments, which throws RangeError for very large arrays, is not modelled.
- WebGPU validation is not modelled. Submits touching a pending buffer, `resolveQuerySet` with no query set, `enc.writeBuffer` (the encoder has no such method) and the free list's missing COPY_DST are recorded as issued, though a browser would raise validation errors or a TypeError there. The TypeError from `enc.writeBuffer` in `seedInitialPopulation` comes before its submit and its cursor assignments, so in a browser `main` rejects before any frame runs; the `Scheduler` model describes the program as if that call had succeeded.
- Buffers.Pipelines.StagingStateMapped: the staging maps are modelled only resolving; a rejected staging map and the staging completions within a `Scheduler` run are not part of the `Host` model.
- A completion and its continuation are one atomic step; microtask interleaving inside a continuation is not modelled.
- `frameHash` is an unbounded integer; it only meets 32-bit arithmetic where it is stored into the Uint32Array.
- Shaders (`compute.wgsl`, `plume.wgsl`, `stats.wgsl`, `render.wgsl`), pipeline creation and adapter/device negotiation are not part of this model; pipelines and the optional query set are names.
- The test harness, build configuration and styling are not part of this model.

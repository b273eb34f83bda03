/** `initPersistence`: the auto-save, which copies the genome buffer into a
    mappable readback buffer, maps it, and stores a base-64 envelope under
    `evo-save`, and `load`, which decodes an envelope back into two queue
    writes. The envelope is base64(JSON({schema, genomes, ringPtr, envSeed,
    rngSeed})) with `genomes` itself the base-64 text of the genome bytes. */
module Persistence {
  import opened Js
  import opened Device
  import opened Base64
  import opened Json
  import Buffers

  const SAVE_KEY: string := "evo-save"

  /** `MAX_AGENTS * 12 * 4`: twelve floats per genome. */
  const GENOME_SIZE: nat := Buffers.MAX_AGENTS * 12 * 4

  /** The free-list cursors as the getter returns them; an absent value is
      JavaScript's undefined. */
  datatype RingPtr = RingPtr(head: Option<int>, tail: Option<int>)

  // --------------------------------------------------------------- envelope

  /** A member whose value is undefined is left out by JSON.stringify. */
  function Optional(key: string, v: Option<int>): seq<Member>
  {
    if v.Some? then [Member(key, JNum(v.value))] else []
  }

  function RingJson(p: RingPtr): Json
  {
    JObj(Optional("head", p.head) + Optional("tail", p.tail))
  }

  /** The `saveData` object literal, members in source order. */
  function SaveJson(genomes: string, ring: RingPtr, frameHash: int): Json
  {
    JObj([ Member("schema", JNum(1)),
           Member("genomes", JStr(genomes)),
           Member("ringPtr", RingJson(ring)),
           Member("envSeed", JNum(0)),
           Member("rngSeed", JNum(frameHash)) ])
  }

  /** The value stored under `evo-save` for the mapped genome bytes, the
      cursors and the frame counter read when the map resolved. */
  function SaveValue(bytes: seq<Byte>, ring: RingPtr, frameHash: int): Result<string>
  {
    match Btoa(FromCharCodes(bytes))
    case Err(e) => Err(e)
    case Ok(genomes) => Btoa(Stringify(SaveJson(genomes, ring, frameHash)))
  }

  /** Every string in `v` (keys included) is Latin-1. */
  predicate Latin1Json(v: Json)
    decreases v
  {
    match v
    case JNum(_) => true
    case JStr(s) => IsLatin1(s)
    case JObj(ms) => forall i :: 0 <= i < |ms| ==> IsLatin1(ms[i].key) && Latin1Json(ms[i].value)
  }

  lemma Latin1Concat(a: string, b: string)
    ensures IsLatin1(a + b) <==> IsLatin1(a) && IsLatin1(b)
  {
    assert forall i :: 0 <= i < |a| ==> a[i] == (a + b)[i];
    assert forall i :: 0 <= i < |b| ==> b[i] == (a + b)[|a| + i];
  }

  lemma {:induction false} EscapeLatin1(s: string)
    requires IsLatin1(s)
    ensures IsLatin1(Escape(s))
    decreases |s|
  {
    if |s| > 0 {
      EscapeLatin1(s[1..]);
      Latin1Concat(EscapeChar(s[0]), Escape(s[1..]));
    }
  }

  lemma IntTextLatin1(n: int)
    ensures IsLatin1(IntText(n))
  {
    if n < 0 {
      Latin1Concat("-", NatText(-n));
    }
  }

  lemma QuoteLatin1(s: string)
    requires IsLatin1(s)
    ensures IsLatin1(Quote(s))
  {
    EscapeLatin1(s);
    Latin1Concat("\"", Escape(s));
    Latin1Concat("\"" + Escape(s), "\"");
  }

  /** JSON.stringify keeps a value's text Latin-1 when all its strings are:
      every escape it writes is ASCII. */
  lemma {:induction false} StringifyLatin1(v: Json)
    requires Latin1Json(v)
    ensures IsLatin1(Stringify(v))
    decreases v, 1
  {
    match v
    case JNum(n) => IntTextLatin1(n);
    case JStr(s) => QuoteLatin1(s);
    case JObj(ms) =>
      if |ms| > 0 {
        MembersTextLatin1(v, 0);
        Latin1Concat("{", MembersText(v, 0));
        Latin1Concat("{" + MembersText(v, 0), "}");
      }
  }

  lemma {:induction false} MembersTextLatin1(obj: Json, i: nat)
    requires obj.JObj? && i < |obj.members| && Latin1Json(obj)
    ensures IsLatin1(MembersText(obj, i))
    decreases obj, 0, |obj.members| - i
  {
    var m := obj.members[i];
    QuoteLatin1(m.key);
    StringifyLatin1(m.value);
    var head := Quote(m.key) + ":" + Stringify(m.value);
    Latin1Concat(Quote(m.key), ":");
    Latin1Concat(Quote(m.key) + ":", Stringify(m.value));
    if i + 1 < |obj.members| {
      MembersTextLatin1(obj, i + 1);
      Latin1Concat(",", MembersText(obj, i + 1));
      Latin1Concat(head, "," + MembersText(obj, i + 1));
    } else {
      assert MembersText(obj, i) == head + "";
    }
  }

  /** Base-64 text is ASCII. */
  lemma EncodeLatin1(bytes: seq<Byte>)
    ensures IsLatin1(Encode(bytes))
  {
    EncodeAlphabet(bytes);
    var g := Encode(bytes);
    forall i | 0 <= i < |g| ensures g[i] as int < 256 {
      if g[i] != '=' {
        var d := Index(g[i]).value;
      }
    }
  }

  lemma RingLatin1(ring: RingPtr)
    ensures Latin1Json(RingJson(ring))
  {
    var ms := RingJson(ring).members;
    assert forall i :: 0 <= i < |ms| ==> ms[i].key == "head" || ms[i].key == "tail";
  }

  lemma SaveJsonLatin1(bytes: seq<Byte>, ring: RingPtr, frameHash: int)
    ensures Latin1Json(SaveJson(Encode(bytes), ring, frameHash))
  {
    EncodeLatin1(bytes);
    EnvelopeLatin1(Encode(bytes), ring, frameHash);
  }

  lemma EnvelopeLatin1(g: string, ring: RingPtr, frameHash: int)
    requires IsLatin1(g)
    ensures Latin1Json(SaveJson(g, ring, frameHash))
  {
    RingLatin1(ring);
    var ms := SaveJson(g, ring, frameHash).members;
    assert IsLatin1(ms[0].key) && IsLatin1(ms[1].key) && IsLatin1(ms[2].key) && IsLatin1(ms[3].key) && IsLatin1(ms[4].key);
    assert Latin1Json(ms[0].value) && Latin1Json(ms[1].value) && Latin1Json(ms[2].value);
    assert Latin1Json(ms[3].value) && Latin1Json(ms[4].value);
  }

  /** Saving never fails in the codec: both `btoa` calls see Latin-1 text. */
  lemma SaveValueOk(bytes: seq<Byte>, ring: RingPtr, frameHash: int)
    ensures Btoa(FromCharCodes(bytes)) == Ok(Encode(bytes))
    ensures IsLatin1(Stringify(SaveJson(Encode(bytes), ring, frameHash)))
    ensures SaveValue(bytes, ring, frameHash) == Ok(Encode(CharCodes(Stringify(SaveJson(Encode(bytes), ring, frameHash)))))
  {
    BytesThroughLatin1(bytes);
    SaveJsonLatin1(bytes, ring, frameHash);
    StringifyLatin1(SaveJson(Encode(bytes), ring, frameHash));
  }

  // ------------------------------------------------------------------- load

  /** ToString of a property value, as `atob` applies it to its argument. */
  function ToJsString(v: Option<Json>): string
  {
    match v
    case None => "undefined"
    case Some(JNum(n)) => IntText(n)
    case Some(JStr(s)) => s
    case Some(JObj(_)) => "[object Object]"
  }

  predicate AllDigits(s: string)
  {
    forall i :: 0 <= i < |s| ==> IsDigit(s[i])
  }

  /** ToUint32(ToNumber(v)), as `new Uint32Array([...])` converts each
      element: undefined and an object are NaN, hence 0. */
  function Uint32Of(v: Option<Json>): (r: nat)
    ensures r < TWO_32
    ensures v.None? ==> r == 0
    ensures v.Some? && v.value.JNum? ==> r == ToUint32(v.value.n) && (r - v.value.n) % TWO_32 == 0
    ensures v.Some? && v.value.JObj? ==> r == 0
  {
    match v
    case None => 0
    case Some(JNum(n)) => ToUint32(n)
    case Some(JStr(s)) => if AllDigits(s) then ToUint32(DigitsValue(s)) else 0
    case Some(JObj(_)) => 0
  }

  /** What `load(str)` issues, and the exception its promise rejects with. */
  datatype LoadOutcome = LoadOutcome(events: seq<Event>, error: Option<Exception>)

  function LoadEffects(str: string): LoadOutcome
  {
    match Atob(str)
    case Err(e) => LoadOutcome([], Some(e))
    case Ok(text) =>
      match Parse(text)
      case Err(e) => LoadOutcome([], Some(e))
      case Ok(json) =>
        match Atob(ToJsString(Property(json, "genomes")))
        case Err(e) => LoadOutcome([], Some(e))
        case Ok(g) =>
          var genomeWrite := WriteBytes(Genomes, 0, CharCodes(g));
          match Property(json, "ringPtr")
          case None => LoadOutcome([genomeWrite], Some(TypeError))
          case Some(p) =>
            var ptr := [U32(Uint32Of(Property(p, "head"))), U32(Uint32Of(Property(p, "tail")))];
            LoadOutcome([genomeWrite, WriteWords(FreeList, 0, ptr)], None)
  }

  /** A cursor as the load writes it back: undefined becomes 0. */
  function CursorWord(v: Option<int>): nat
  {
    if v.Some? then ToUint32(v.value) else 0
  }

  lemma RingLookup(ring: RingPtr)
    ensures Property(RingJson(ring), "head") == if ring.head.Some? then Some(JNum(ring.head.value)) else None
    ensures Property(RingJson(ring), "tail") == if ring.tail.Some? then Some(JNum(ring.tail.value)) else None
  {
    var ms := RingJson(ring).members;
    assert "head" != "tail" by { assert "head"[0] != "tail"[0]; }
    if |ms| == 2 {
      assert ms[..1] == [ms[0]];
    }
  }

  lemma SaveJsonLookup(g: string, ring: RingPtr, frameHash: int)
    ensures Property(SaveJson(g, ring, frameHash), "genomes") == Some(JStr(g))
    ensures Property(SaveJson(g, ring, frameHash), "ringPtr") == Some(RingJson(ring))
  {
    var ms := SaveJson(g, ring, frameHash).members;
    var later := [ms[3], ms[4]];
    assert ms == ms[..3] + later;
    assert ms[..3] == ms[..2] + [ms[2]];
    assert "rngSeed"[1] != "genomes"[1] && "rngSeed"[1] != "ringPtr"[1];
    assert "envSeed"[0] != "genomes"[0] && "envSeed"[0] != "ringPtr"[0];
    assert "ringPtr"[0] != "genomes"[0];
    LastWithKeySkip(ms[..3], later, "ringPtr");
    LastWithKeySkip(ms[..3], later, "genomes");
    LastWithKeySkip(ms[..2], [ms[2]], "genomes");
  }

  /** Decoding after encoding: loading a saved value writes back exactly the
      genome bytes that were read, at offset 0 of the genome buffer, and then
      the two cursors (undefined ones as 0, others modulo 2^32) at offset 0
      of the free list, and the load succeeds. */
  lemma LoadAfterSave(bytes: seq<Byte>, ring: RingPtr, frameHash: int)
    ensures SaveValue(bytes, ring, frameHash).Ok?
    ensures LoadEffects(SaveValue(bytes, ring, frameHash).value)
         == LoadOutcome([ WriteBytes(Genomes, 0, bytes),
                          WriteWords(FreeList, 0, [U32(CursorWord(ring.head)), U32(CursorWord(ring.tail))]) ], None)
  {
    var g := Encode(bytes);
    var json := SaveJson(g, ring, frameHash);
    var text := Stringify(json);
    SaveValueOk(bytes, ring, frameHash);
    SaveJsonLatin1(bytes, ring, frameHash);
    StringifyLatin1(json);
    AtobBtoa(text);
    ParseOfStringify(json);
    SaveJsonLookup(g, ring, frameHash);
    BytesThroughLatin1(bytes);
    RingLookup(ring);
  }

  /** There is no schema check: of the parsed envelope only `genomes` and
      `ringPtr` are read, so two envelopes that agree on those two load
      alike, whatever their `schema`, `envSeed` and `rngSeed`. */
  lemma LoadReadsTwoKeys(a: string, b: string)
    requires Atob(a).Ok? && Atob(b).Ok? && Parse(Atob(a).value).Ok? && Parse(Atob(b).value).Ok?
    requires Property(Parse(Atob(a).value).value, "genomes") == Property(Parse(Atob(b).value).value, "genomes")
    requires Property(Parse(Atob(a).value).value, "ringPtr") == Property(Parse(Atob(b).value).value, "ringPtr")
    ensures LoadEffects(a) == LoadEffects(b)
  {
  }

  /** An envelope without `genomes` hands "undefined" to `atob`: nine
      alphabet characters, a length that is 1 modulo 4, so the load rejects
      with InvalidCharacterError before it writes anything. */
  lemma LoadWithoutGenomes(str: string)
    requires Atob(str).Ok? && Parse(Atob(str).value).Ok?
    requires Property(Parse(Atob(str).value).value, "genomes").None?
    ensures LoadEffects(str) == LoadOutcome([], Some(InvalidCharacterError))
  {
    AtobUndefined();
  }

  lemma AtobUndefined()
    ensures Atob(ToJsString(None)) == Err(InvalidCharacterError)
  {
    var u := ToJsString(None);
    assert |u| == 9;
    forall i | 0 <= i < |u| ensures !IsAsciiWhitespace(u[i]) {
      assert 'a' <= u[i] <= 'z';
    }
    AtobRejectsLength(u);
  }

  /** An envelope without `ringPtr`: the genome write is issued, then reading
      `head` of undefined throws, and the free list is never written. */
  lemma LoadWithoutRingPtr(str: string)
    requires Atob(str).Ok? && Parse(Atob(str).value).Ok?
    requires Atob(ToJsString(Property(Parse(Atob(str).value).value, "genomes"))).Ok?
    requires Property(Parse(Atob(str).value).value, "ringPtr").None?
    ensures LoadEffects(str).error == Some(TypeError)
    ensures |LoadEffects(str).events| == 1 && LoadEffects(str).events[0].WriteBytes?
    ensures LoadEffects(str).events[0].dst == Genomes
  {
  }

  // ------------------------------------------------------------ local storage

  /** localStorage.setItem throws QuotaExceededError when the item does not
      fit; the quota is counted in code units of key and value. */
  predicate Fits(key: string, value: string, quota: nat)
  {
    |key| + |value| <= quota
  }

  class Store {
    var items: map<string, string>
    const quota: nat

    constructor (quota: nat)
      ensures items == map[] && this.quota == quota
    {
      items := map[];
      this.quota := quota;
    }

    method SetItem(key: string, value: string) returns (ok: bool)
      modifies this
      ensures ok <==> Fits(key, value, quota)
      ensures items == if ok then old(items)[key := value] else old(items)
    {
      ok := Fits(key, value, quota);
      if ok {
        items := items[key := value];
      }
    }
  }

  // ---------------------------------------------------------------- auto-save

  /** The `saving` flag and the state of the readback buffer. */
  datatype Saver = Saver(saving: bool, readback: MapState)

  /** What a call of `autoSave()` issues before its `await`: nothing while
      a save is in flight, otherwise the genome copy and the map request. */
  function AutoSaveEvents(s: Saver): seq<Event>
  {
    if s.saving then []
    else [ Submit([Copy(Genomes, 0, SaveReadback, 0, GENOME_SIZE)]),
           MapRequested(SaveReadback, s.readback == Unmapped) ]
  }

  function AfterAutoSave(s: Saver): Saver
  {
    if s.saving then s else Saver(true, AfterMapAsync(s.readback))
  }

  datatype SaveOutcome = SaveOutcome(saver: Saver, items: map<string, string>, events: seq<Event>)

  /** The continuation of `autoSave()` when its map settles. Only the path
      through a successful `setItem` unmaps and clears `saving`; a rejected
      map or a throwing `setItem` leaves `saving` set. */
  function SaveSettle(s: Saver, ok: bool, bytes: seq<Byte>, ring: RingPtr, frameHash: int,
                      items: map<string, string>, quota: nat): SaveOutcome
  {
    if !ok then SaveOutcome(Saver(s.saving, Unmapped), items, [MapSettled(SaveReadback, false)])
    else match SaveValue(bytes, ring, frameHash)
      case Err(_) => SaveOutcome(Saver(s.saving, Mapped), items, [MapSettled(SaveReadback, true)])
      case Ok(value) =>
        if Fits(SAVE_KEY, value, quota) then
          SaveOutcome(Saver(false, Unmapped), items[SAVE_KEY := value],
                      [MapSettled(SaveReadback, true), StoreItem(SAVE_KEY, value, true), Unmapping(SaveReadback)])
        else
          SaveOutcome(Saver(s.saving, Mapped), items,
                      [MapSettled(SaveReadback, true), StoreItem(SAVE_KEY, value, false)])
  }

  /** A settled save either stores the envelope of exactly the mapped bytes
      and is ready for the next call, or leaves `saving` set for good. */
  lemma SaveSettleCases(s: Saver, ok: bool, bytes: seq<Byte>, ring: RingPtr, frameHash: int,
                        items: map<string, string>, quota: nat)
    requires s.saving
    ensures SaveValue(bytes, ring, frameHash).Ok?
    ensures var o := SaveSettle(s, ok, bytes, ring, frameHash, items, quota);
            (o.saver == Saver(false, Unmapped) && o.items == items[SAVE_KEY := SaveValue(bytes, ring, frameHash).value])
            || (o.saver.saving && o.saver.readback != Pending && o.items == items)
    ensures var o := SaveSettle(s, ok, bytes, ring, frameHash, items, quota);
            !o.saver.saving <==> ok && Fits(SAVE_KEY, SaveValue(bytes, ring, frameHash).value, quota)
  {
    SaveValueOk(bytes, ring, frameHash);
  }

  class Persistence {
    var saving: bool
    const tl: Timeline
    const readback: MappableBuffer
    const store: Store

    ghost function Model(): Saver
      reads this, readback
    {
      Saver(saving, readback.state)
    }

    ghost predicate Valid()
      reads this, readback
    {
      readback.tl == tl && readback.id == SaveReadback && readback.size == GENOME_SIZE
    }

    constructor (tl: Timeline, store: Store)
      ensures Valid() && this.tl == tl && this.store == store
      ensures fresh(readback) && Model() == Saver(false, Unmapped)
    {
      this.tl := tl;
      this.store := store;
      saving := false;
      readback := new MappableBuffer(tl, SaveReadback, GENOME_SIZE);
    }

    /** `autoSave()` up to its `await`. */
    method AutoSave() returns (started: bool)
      requires Valid()
      modifies this, readback, tl
      ensures started <==> !old(saving)
      ensures Model() == AfterAutoSave(old(Model()))
      ensures tl.events == old(tl.events) + AutoSaveEvents(old(Model()))
    {
      if saving {
        return false;
      }
      started := true;
      saving := true;
      tl.Append(Submit([Copy(Genomes, 0, SaveReadback, 0, GENOME_SIZE)]));
      var accepted := readback.MapAsync();
    }

    /** `autoSave()` after its `await`; `ring` and `frameHash` are what the
        two getters return at that moment. */
    method AutoSaveSettle(ok: bool, bytes: seq<Byte>, ring: RingPtr, frameHash: int)
      requires Valid() && readback.state == Pending && |bytes| == GENOME_SIZE
      modifies this, readback, tl, store
      ensures var o := SaveSettle(old(Model()), ok, bytes, ring, frameHash, old(store.items), store.quota);
              Model() == o.saver && store.items == o.items && tl.events == old(tl.events) + o.events
    {
      readback.Settle(ok, bytes);
      if !ok {
        return;
      }
      var range := readback.GetMappedRange();
      var genomes := Btoa(FromCharCodes(range));
      if genomes.Err? {
        return;
      }
      var value := Btoa(Stringify(SaveJson(genomes.value, ring, frameHash)));
      if value.Err? {
        return;
      }
      var stored := store.SetItem(SAVE_KEY, value.value);
      tl.Append(StoreItem(SAVE_KEY, value.value, stored));
      if !stored {
        return;
      }
      readback.Unmap();
      saving := false;
    }

    /** `load(str)`: every step that can throw ends it, after the writes
        already issued. */
    method Load(str: string) returns (error: Option<Exception>)
      modifies tl
      ensures tl.events == old(tl.events) + LoadEffects(str).events
      ensures error == LoadEffects(str).error
    {
      var text := Atob(str);
      if text.Err? {
        return Some(text.error);
      }
      var json := Parse(text.value);
      if json.Err? {
        return Some(json.error);
      }
      var g := Atob(ToJsString(Property(json.value, "genomes")));
      if g.Err? {
        return Some(g.error);
      }
      var bytes := CharCodes(g.value);
      tl.Append(WriteBytes(Genomes, 0, bytes));
      var ringPtr := Property(json.value, "ringPtr");
      if ringPtr.None? {
        return Some(TypeError);
      }
      var ptrArr := [U32(Uint32Of(Property(ringPtr.value, "head"))), U32(Uint32Of(Property(ringPtr.value, "tail")))];
      tl.Append(WriteWords(FreeList, 0, ptrArr));
      error := None;
    }
  }
}

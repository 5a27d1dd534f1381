/** What a decode session carries from one decode to the next
    (mfsk-ffi/src/lib.rs, `V2Decoder`, `run_decode`, `mfsk_session_keep_known`,
    `mfsk_session_keep_fft_cache`): the known signals, and the slot transform with the
    fingerprint of the audio it is kept for.

    A transform is named by the buffer it is the transform of, so that "a cache built
    from other audio" can be said. The engines are represented by their rows and by
    which buffer the cache they return was built from
    (mfsk-core/src/ft8/decode.rs:1595-1770, mfsk-core/src/ft4/decode.rs:254-262,
    mfsk-core/src/engine/pipeline.rs:2142-2145). */
module DecodeSession {

  import opened Common
  import F = Fingerprint

  datatype Mode = Ft8 | Ft4 | Fst4 | NoHandle

  /** The search a request asks for, in the order `run_decode` looks. */
  datatype Search = Sniper | SicEarly | SicRounds | Wide

  datatype Params = Params(narrow: bool, sicEarly: bool, sicRounds: bool)

  type Audio = seq<I16>

  datatype Cache = Cache(of: Audio)

  /** What reaches the engine. */
  datatype Request<R> = Request(audio: Audio, search: Search, known: seq<R>, cache: Option<Cache>)

  /** `cleaned` is the audio less its known signals, `residual` what a staged decode
      leaves after subtracting all it found, `startsRound` whether the first SIC round
      ran and had candidates (without any the cache it was given is not used). */
  datatype Engine<!R> = Engine(
    rows: Request<R> -> seq<R>,
    startsRound: Request<R> -> bool,
    cleaned: (Audio, seq<R>) -> Audio,
    residual: Request<R> -> Audio)

  function SearchOf(mode: Mode, p: Params): Search {
    if mode == Ft8 && p.narrow then Sniper
    else if mode == Ft8 && p.sicEarly then SicEarly
    else if (mode == Ft8 || mode == Ft4) && p.sicRounds then SicRounds
    else Wide
  }

  /** The buffer whose transform the engine hands back. */
  function Transformed<R>(mode: Mode, e: Engine<R>, r: Request<R>): Audio {
    match r.search
    case Sniper => r.audio
    case SicEarly => e.residual(r)
    case SicRounds =>
      if mode == Ft4 then r.audio
      else if r.known != [] then e.cleaned(r.audio, r.known)
      else if r.cache.Some? && e.startsRound(r) then r.cache.value.of
      else r.audio
    case Wide => if r.cache.Some? then r.cache.value.of else r.audio
  }

  datatype Session<R> = Session(
    mode: Mode, keepKnown: bool, known: seq<R>, keepCache: bool, cache: Option<(int, Cache)>, last: seq<R>)

  function Open<R>(mode: Mode): Session<R> {
    Session(mode, false, [], false, None, [])
  }

  /** The modes with a decode handle publish both bits. */
  predicate Publishes(mode: Mode) {
    mode != NoHandle
  }

  function KeepKnown<R>(s: Session<R>, keep: bool): Session<R> {
    if keep && !Publishes(s.mode) then s
    else s.(keepKnown := keep, known := if keep then s.known else [])
  }

  function KeepCache<R>(s: Session<R>, keep: bool): Session<R> {
    if keep && !Publishes(s.mode) then s
    else s.(keepCache := keep, cache := if keep then s.cache else None)
  }

  /** The kept cache, if it is kept for audio with this fingerprint. */
  function Matching<R>(s: Session<R>, audio: Audio): Option<Cache> {
    if s.cache.Some? && s.cache.value.0 == F.Fingerprint(audio) then Some(s.cache.value.1) else None
  }

  /** The request `run_decode` makes: a narrow search takes neither list nor cache, a
      staged one is given the cache and ignores it. */
  function RequestOf<R>(s: Session<R>, audio: Audio, p: Params): Request<R> {
    var search := SearchOf(s.mode, p);
    if search == Sniper then Request(audio, search, [], None)
    else Request(audio, search, s.known, Matching(s, audio))
  }

  /** `run_decode`. The known list and the cache leave the session before the engine
      is chosen; a mode without a decode handle loses both. */
  function Decode<R>(s: Session<R>, e: Engine<R>, audio: Audio, p: Params): Session<R> {
    if s.mode == NoHandle then s.(known := [], cache := None, last := [])
    else
      var r := RequestOf(s, audio, p);
      var rows := e.rows(r);
      s.(last := rows,
         known := if s.keepKnown then rows else [],
         cache := if s.keepCache then Some((F.Fingerprint(audio), Cache(Transformed(s.mode, e, r)))) else None)
  }

  // ---- The handle, in place -----------------------------------------------------------

  class V2Decoder<!R> {
    const mode: Mode
    var keepKnown: bool
    var known: seq<R>
    var keepFftCache: bool
    var fftCache: Option<(int, Cache)>
    var last: seq<R>

    ghost function Abs(): Session<R>
      reads this
    {
      Session(mode, keepKnown, known, keepFftCache, fftCache, last)
    }

    constructor (m: Mode)
      ensures Abs() == Open(m)
    {
      mode := m;
      keepKnown, known, keepFftCache, fftCache, last := false, [], false, None, [];
    }

    method SetKeepKnown(keep: bool) returns (ok: bool)
      modifies this
      ensures ok == (keep ==> Publishes(mode))
      ensures Abs() == KeepKnown(old(Abs()), keep)
    {
      ok := !keep || Publishes(mode);
      if !ok { return; }
      keepKnown := keep;
      if !keep {
        known := [];
      }
    }

    method SetKeepFftCache(keep: bool) returns (ok: bool)
      modifies this
      ensures ok == (keep ==> Publishes(mode))
      ensures Abs() == KeepCache(old(Abs()), keep)
    {
      ok := !keep || Publishes(mode);
      if !ok { return; }
      keepFftCache := keep;
      if !keep {
        fftCache := None;
      }
    }

    method RunDecode(e: Engine<R>, audio: Audio, p: Params) returns (ok: bool)
      modifies this
      ensures ok == (mode != NoHandle)
      ensures Abs() == Decode(old(Abs()), e, audio, p)
    {
      last := [];
      var taken := known;
      known := [];
      var fingerprint := F.AudioFingerprint(audio);
      var cache := if fftCache.Some? && fftCache.value.0 == fingerprint then Some(fftCache.value.1) else None;
      fftCache := None;
      if mode == NoHandle { return false; }
      var search := SearchOf(mode, p);
      var request := if search == Sniper then Request(audio, search, [], None) else Request(audio, search, taken, cache);
      var rows := e.rows(request);
      if keepFftCache {
        fftCache := Some((fingerprint, Cache(Transformed(mode, e, request))));
      }
      if keepKnown {
        known := rows;
      }
      last := rows;
      ok := true;
    }
  }

  // ---- Runs --------------------------------------------------------------------------------

  datatype Op = OpKeepKnown(keep: bool) | OpKeepCache(keep: bool) | OpDecode(audio: Audio, p: Params)

  function Step<R>(s: Session<R>, e: Engine<R>, op: Op): Session<R> {
    match op
    case OpKeepKnown(keep) => KeepKnown(s, keep)
    case OpKeepCache(keep) => KeepCache(s, keep)
    case OpDecode(audio, p) => Decode(s, e, audio, p)
  }

  function Run<R>(mode: Mode, e: Engine<R>, ops: seq<Op>): Session<R> {
    if ops == [] then Open(mode) else Step(Run(mode, e, ops[..|ops| - 1]), e, ops[|ops| - 1])
  }

  /** The request that decode `i` of a run makes. */
  function RequestAt<R>(mode: Mode, e: Engine<R>, ops: seq<Op>, i: nat): Request<R>
    requires i < |ops| && ops[i].OpDecode?
  {
    RequestOf(Run(mode, e, ops[..i]), ops[i].audio, ops[i].p)
  }

  /** With keeping off there is nothing kept, on every run; and what is kept is kept
      for the audio of the last decode, whose rows the known list is. */
  lemma {:induction false} NothingKeptUnasked<R>(mode: Mode, e: Engine<R>, ops: seq<Op>)
    ensures
      var s := Run(mode, e, ops);
      && s.mode == mode
      && (!s.keepKnown ==> s.known == [])
      && (!s.keepCache ==> s.cache == None)
      && (s.known != [] ==> s.known == s.last)
      && (s.cache.Some? ==> LastAudio(ops).Some? && s.cache.value.0 == F.Fingerprint(LastAudio(ops).value))
      && ((s.keepKnown || s.keepCache) ==> Publishes(mode))
  {
    if ops != [] {
      NothingKeptUnasked(mode, e, ops[..|ops| - 1]);
    }
  }

  /** Op `k` switches keeping the known list on, and none after it switches it off. */
  ghost predicate OnSince(ops: seq<Op>, k: nat) {
    k < |ops| && ops[k] == OpKeepKnown(true) && forall j :: k < j < |ops| ==> ops[j] != OpKeepKnown(false)
  }

  /** Keeping is on exactly when it was switched on, and not off since, on a mode with a
      decode handle. */
  lemma {:induction false} KeepingKnown<R>(mode: Mode, e: Engine<R>, ops: seq<Op>)
    ensures Run(mode, e, ops).keepKnown <==> mode != NoHandle && exists k: nat :: OnSince(ops, k)
  {
    NothingKeptUnasked(mode, e, ops);
    if ops != [] {
      var n := |ops| - 1;
      var init := ops[..n];
      KeepingKnown(mode, e, init);
      NothingKeptUnasked(mode, e, init);
      forall k: nat | OnSince(init, k) && ops[n] != OpKeepKnown(false) ensures OnSince(ops, k) {
      }
      forall k: nat | OnSince(ops, k) ensures k == n || (OnSince(init, k) && ops[n] != OpKeepKnown(false)) {
        if k < n {
          assert init[k] == ops[k];
        }
      }
      if ops[n] == OpKeepKnown(true) {
        assert OnSince(ops, n);
      }
    }
  }

  /** Decode `i` is the last, and the list was being kept then and has not been dropped
      since: known are exactly its rows. */
  lemma {:induction false} KnownAreTheRows<R>(mode: Mode, e: Engine<R>, ops: seq<Op>, i: nat)
    requires mode != NoHandle && i < |ops| && ops[i].OpDecode? && Run(mode, e, ops[..i]).keepKnown
    requires forall j :: i < j < |ops| ==> !ops[j].OpDecode? && ops[j] != OpKeepKnown(false)
    ensures Run(mode, e, ops).known == Run(mode, e, ops).last == e.rows(RequestAt(mode, e, ops, i))
    ensures Run(mode, e, ops).keepKnown
  {
    var n := |ops| - 1;
    NothingKeptUnasked(mode, e, ops[..n]);
    if i < n {
      assert ops[..n][..i] == ops[..i];
      KnownAreTheRows(mode, e, ops[..n], i);
    }
  }

  /** With keeping switched on, and a decode since, on a mode with a decode handle: the
      known list is exactly the last decode's rows, and every next request but a narrow
      one carries it. */
  lemma KnownIsKept<R>(mode: Mode, e: Engine<R>, ops: seq<Op>, k: nat, i: nat, audio: Audio, p: Params)
    requires mode != NoHandle && OnSince(ops, k) && k < i < |ops| && ops[i].OpDecode?
    requires forall j :: i < j < |ops| ==> !ops[j].OpDecode?
    ensures
      var rows := e.rows(RequestAt(mode, e, ops, i));
      && Run(mode, e, ops).known == rows
      && RequestOf(Run(mode, e, ops), audio, p).known == if SearchOf(mode, p) == Sniper then [] else rows
  {
    KeepingKnown(mode, e, ops[..i]);
    assert OnSince(ops[..i], k);
    KnownAreTheRows(mode, e, ops, i);
    NothingKeptUnasked(mode, e, ops);
  }

  /** What a decode asks for: only FT8 searches narrowly or by stages, only FT8 and FT4
      subtract in rounds; narrow comes before staged, staged before rounds. */
  lemma SearchPriority(mode: Mode, p: Params)
    ensures SearchOf(mode, p) == Sniper <==> mode == Ft8 && p.narrow
    ensures SearchOf(mode, p) == SicEarly <==> mode == Ft8 && !p.narrow && p.sicEarly
    ensures SearchOf(mode, p) == SicRounds
      <==> p.sicRounds && (mode == Ft4 || (mode == Ft8 && !p.narrow && !p.sicEarly))
  {
  }

  /** The audio of the last decode. */
  function LastAudio(ops: seq<Op>): Option<Audio> {
    if ops == [] then None
    else if ops[|ops| - 1].OpDecode? then Some(ops[|ops| - 1].audio)
    else LastAudio(ops[..|ops| - 1])
  }

  /** After an edit of exactly one sample the cache is never offered, on any run: the
      fingerprints differ. */
  lemma OneSampleEditTransformsAfresh<R>(mode: Mode, e: Engine<R>, ops: seq<Op>, audio: Audio, p: Params, k: nat, x: I16)
    requires LastAudio(ops) == Some(audio) && k < |audio| && x != audio[k]
    ensures RequestOf(Run(mode, e, ops), audio[k := x], p).cache == None
  {
    NothingKeptUnasked(mode, e, ops);
    F.OneSampleEditChangesIt(audio, k, x);
  }

  /** The other half: the same audio again is offered its cache. */
  lemma SameAudioReuses<R>(s: Session<R>, e: Engine<R>, audio: Audio, p: Params, q: Params)
    requires s.mode != NoHandle && s.keepCache && SearchOf(s.mode, q) != Sniper
    ensures RequestOf(Decode(s, e, audio, p), audio, q).cache
            == Some(Cache(Transformed(s.mode, e, RequestOf(s, audio, p))))
  {
  }

  // ---- Is the cache that audio's transform? ------------------------------------------------

  /** The engine hands back the transform of a buffer it has subtracted signals from. */
  predicate Subtracts<R>(mode: Mode, r: Request<R>) {
    r.search == SicEarly || (r.search == SicRounds && mode == Ft8 && r.known != [])
  }

  function Subtracted<R>(e: Engine<R>, r: Request<R>): Audio {
    if r.search == SicEarly then e.residual(r) else e.cleaned(r.audio, r.known)
  }

  /** The fingerprint is that of the audio the caller passed, but a subtracting search
      returns the transform of what was left. So a decode of the same audio that
      follows is offered that audio's own transform exactly when the first decode was
      not a subtracting one and had itself been offered no wrong cache, or when there
      was nothing to subtract. */
  lemma OfferedItsOwnTransform<R>(s: Session<R>, e: Engine<R>, audio: Audio, p: Params, q: Params)
    requires s.mode != NoHandle && s.keepCache && SearchOf(s.mode, q) != Sniper
    ensures
      var r := RequestOf(s, audio, p);
      RequestOf(Decode(s, e, audio, p), audio, q).cache == Some(Cache(audio))
      <==> if Subtracts(s.mode, r) then Subtracted(e, r) == audio
           else r.cache == None || r.cache == Some(Cache(audio))
                || (r.search == SicRounds && (s.mode == Ft4 || !e.startsRound(r)))
  {
    SameAudioReuses(s, e, audio, p, q);
  }

  /** No two different buffers of the run share a fingerprint. */
  ghost predicate NoCollision(ops: seq<Op>) {
    forall i, j :: 0 <= i < |ops| && 0 <= j < |ops| && Collide(ops[i], ops[j]) ==> ops[i].audio == ops[j].audio
  }

  predicate Collide(a: Op, b: Op) {
    a.OpDecode? && b.OpDecode? && F.Fingerprint(a.audio) == F.Fingerprint(b.audio)
  }

  lemma LastAudioIsOne(ops: seq<Op>) returns (i: nat)
    requires LastAudio(ops).Some?
    ensures i < |ops| && ops[i].OpDecode? && ops[i].audio == LastAudio(ops).value
    decreases |ops|
  {
    if ops[|ops| - 1].OpDecode? {
      i := |ops| - 1;
    } else {
      i := LastAudioIsOne(ops[..|ops| - 1]);
    }
  }

  // ---- Whose transform the cache is ---------------------------------------------------------

  /** The engine works on the cache it was offered and hands that back. */
  predicate Reuses<R>(mode: Mode, e: Engine<R>, r: Request<R>) {
    r.cache.Some?
    && (r.search == Wide || (r.search == SicRounds && mode == Ft8 && r.known == [] && e.startsRound(r)))
  }

  /** Otherwise it transforms the audio, or what it has subtracted from it. */
  function Built<R>(mode: Mode, e: Engine<R>, r: Request<R>): Audio {
    if Subtracts(mode, r) then Subtracted(e, r) else r.audio
  }

  /** The last decode that did not reuse the cache it was offered. */
  function Origin<R>(mode: Mode, e: Engine<R>, ops: seq<Op>): nat {
    if ops == [] then 0
    else
      var n := |ops| - 1;
      if ops[n].OpDecode? && !Reuses(mode, e, RequestAt(mode, e, ops, n)) then n else Origin(mode, e, ops[..n])
  }

  lemma TransformedIs<R>(mode: Mode, e: Engine<R>, r: Request<R>)
    requires r.search == SicRounds ==> mode == Ft8 || mode == Ft4
    ensures Transformed(mode, e, r) == if Reuses(mode, e, r) then r.cache.value.of else Built(mode, e, r)
  {
  }

  /** On every run the kept transform is the one that decode built, kept since for
      audio of the same fingerprint. */
  lemma {:induction false} CacheIsOfOrigin<R>(mode: Mode, e: Engine<R>, ops: seq<Op>)
    ensures
      var s, i := Run(mode, e, ops), Origin(mode, e, ops);
      s.cache.Some? ==>
        && i < |ops| && ops[i].OpDecode?
        && s.cache.value == (F.Fingerprint(ops[i].audio), Cache(Built(mode, e, RequestAt(mode, e, ops, i))))
  {
    if ops != [] {
      var n := |ops| - 1;
      var init, s := ops[..n], Run(mode, e, ops[..n]);
      CacheIsOfOrigin(mode, e, init);
      NothingKeptUnasked(mode, e, init);
      var i := Origin(mode, e, init);
      if s.cache.Some? {
        assert init[..i] == ops[..i] && init[i] == ops[i];
      }
      if ops[n].OpDecode? {
        TransformedIs(mode, e, RequestAt(mode, e, ops, n));
      }
    }
  }

  /** Op `k` switches keeping the cache on, and none after it switches it off. */
  ghost predicate CacheOnSince(ops: seq<Op>, k: nat) {
    k < |ops| && ops[k] == OpKeepCache(true) && forall j :: k < j < |ops| ==> ops[j] != OpKeepCache(false)
  }

  /** Keeping it is on exactly when it was switched on, and not off since, on a mode with
      a decode handle. */
  lemma {:induction false} KeepingCache<R>(mode: Mode, e: Engine<R>, ops: seq<Op>)
    ensures Run(mode, e, ops).keepCache <==> mode != NoHandle && exists k: nat :: CacheOnSince(ops, k)
  {
    NothingKeptUnasked(mode, e, ops);
    if ops != [] {
      var n := |ops| - 1;
      var init := ops[..n];
      KeepingCache(mode, e, init);
      NothingKeptUnasked(mode, e, init);
      forall k: nat | CacheOnSince(init, k) && ops[n] != OpKeepCache(false) ensures CacheOnSince(ops, k) {
      }
      forall k: nat | CacheOnSince(ops, k) ensures k == n || (CacheOnSince(init, k) && ops[n] != OpKeepCache(false)) {
        if k < n {
          assert init[k] == ops[k];
        }
      }
      if ops[n] == OpKeepCache(true) {
        assert CacheOnSince(ops, n);
      }
    }
  }

  lemma {:induction false} CacheIsKept<R>(mode: Mode, e: Engine<R>, ops: seq<Op>, i: nat)
    requires mode != NoHandle && i < |ops| && ops[i].OpDecode? && Run(mode, e, ops[..i]).keepCache
    requires forall j :: i < j < |ops| ==> !ops[j].OpDecode? && ops[j] != OpKeepCache(false)
    ensures
      Run(mode, e, ops).cache
      == Some((F.Fingerprint(ops[i].audio), Cache(Transformed(mode, e, RequestAt(mode, e, ops, i)))))
    ensures Run(mode, e, ops).keepCache
  {
    var n := |ops| - 1;
    NothingKeptUnasked(mode, e, ops[..n]);
    if i < n {
      assert ops[..n][..i] == ops[..i];
      CacheIsKept(mode, e, ops[..n], i);
    }
  }

  /** With keeping switched on, and a decode since, on a mode with a decode handle: the
      last decode's transform is kept, and a next request for the same audio, a narrow
      one apart, is offered it. */
  lemma CacheIsOffered<R>(mode: Mode, e: Engine<R>, ops: seq<Op>, k: nat, i: nat, p: Params)
    requires mode != NoHandle && CacheOnSince(ops, k) && k < i < |ops| && ops[i].OpDecode?
    requires forall j :: i < j < |ops| ==> !ops[j].OpDecode?
    ensures
      RequestOf(Run(mode, e, ops), ops[i].audio, p).cache
      == if SearchOf(mode, p) == Sniper then None
         else Some(Cache(Transformed(mode, e, RequestAt(mode, e, ops, i))))
  {
    KeepingCache(mode, e, ops[..i]);
    assert CacheOnSince(ops[..i], k);
    CacheIsKept(mode, e, ops, i);
    NothingKeptUnasked(mode, e, ops);
  }

  /** So over buffers the fingerprint tells apart, what is kept is the last audio's own
      transform if and only if the decode that built it did not subtract, or had nothing
      to subtract, however often the cache has been reused since. */
  lemma CacheIsRightExactly<R>(mode: Mode, e: Engine<R>, ops: seq<Op>)
    requires NoCollision(ops) && Run(mode, e, ops).cache.Some?
    ensures
      var i := Origin(mode, e, ops);
      i < |ops| && ops[i].OpDecode? && LastAudio(ops) == Some(ops[i].audio) &&
      var r := RequestAt(mode, e, ops, i);
      Run(mode, e, ops).cache.value.1 == Cache(LastAudio(ops).value)
      <==> !Subtracts(mode, r) || Subtracted(e, r) == ops[i].audio
  {
    CacheIsOfOrigin(mode, e, ops);
    NothingKeptUnasked(mode, e, ops);
    var i := Origin(mode, e, ops);
    var j := LastAudioIsOne(ops);
    assert Collide(ops[i], ops[j]);
  }

  /** In particular a run that never subtracts keeps only right caches. */
  lemma CacheIsRight<R>(mode: Mode, e: Engine<R>, ops: seq<Op>)
    requires NoCollision(ops) && Run(mode, e, ops).cache.Some?
    requires forall i :: 0 <= i < |ops| && ops[i].OpDecode? ==> !Subtracts(mode, RequestAt(mode, e, ops, i))
    ensures LastAudio(ops).Some? && Run(mode, e, ops).cache.value.1 == Cache(LastAudio(ops).value)
  {
    CacheIsRightExactly(mode, e, ops);
  }

  /** A staged decode, then a plain one of the same slot: the plain one is offered the
      transform of the residual. */
  lemma StagedDecodePoisonsTheCache<R>(e: Engine<R>, audio: Audio)
    requires e.residual(Request(audio, SicEarly, [], None)) != audio
    ensures
      var s := Run(Ft8, e, [OpKeepCache(true), OpDecode(audio, Params(false, true, false))]);
      var next := RequestOf(s, audio, Params(false, false, false));
      && next.search == Wide && next.audio == audio
      && next.cache == Some(Cache(e.residual(Request(audio, SicEarly, [], None))))
      && next.cache != Some(Cache(audio))
  {
    var ops := [OpKeepCache(true), OpDecode(audio, Params(false, true, false))];
    assert ops[..1] == [OpKeepCache(true)] && [OpKeepCache(true)][..0] == [];
    var kept := KeepCache(Open<R>(Ft8), true);
    assert Run(Ft8, e, ops[..1]) == kept;
    assert RequestOf(kept, audio, Params(false, true, false)) == Request(audio, SicEarly, [], None);
  }
}

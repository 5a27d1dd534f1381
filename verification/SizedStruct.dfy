/** Size-versioned structs at the C boundary (mfsk-ffi/src/lib.rs,
    `write_size_versioned`, `mfsk_decode_params_init`, `read_params`;
    mfsk-ffi-abi/src/lib.rs, `MfskDecodeParams`): a caller declares how much of the
    struct it knows, and only that prefix is written or read.

    Memory is bytes, words are little-endian, floats are their bit patterns. */
module SizedStruct {

  import opened Common

  type Byte = x: int | 0 <= x < 0x100

  datatype Result<T> = Ok(value: T) | Err(error: ReadError)

  datatype ReadError = NotADepth | NotAStrictness | NotAnEqMode | SicEarlyNotABool | HasApHintNotABool

  datatype Depth = ModeDefault | BpAll | BpAllOsd
  datatype Strictness = Strict | Normal | Deep
  datatype EqMode = Off | Local

  const FULL: nat := 92        // size_of::<MfskDecodeParams>()
  const DEPTH_AT: nat := 20
  const STRICTNESS_AT: nat := 24
  const EQ_MODE_AT: nat := 28
  const SIC_EARLY_AT: nat := 37
  const HAS_AP_HINT_AT: nat := 38
  const SEARCH_AT: nat := 88

  /** `pad` is the padding byte before `search_hz`, which is copied with the rest. */
  datatype Params = Params(
    size: U32, freqMin: U32, freqMax: U32, syncMin: U32, maxCand: U32,
    depth: Depth, strictness: Strictness, eqMode: EqMode, freqHint: U32,
    sicRounds: Byte, sicEarly: bool, hasApHint: bool,
    apCall1: seq<Byte>, apCall2: seq<Byte>, apGrid: seq<Byte>, pad: Byte, searchHz: U32)

  predicate WellFormed(p: Params) {
    |p.apCall1| == |p.apCall2| == |p.apGrid| == 16
  }

  // ---- Words ---------------------------------------------------------------------------

  function ByteOf(x: U32, j: nat): Byte
    requires j < 4
  {
    if j == 0 then x % 0x100
    else if j == 1 then x / 0x100 % 0x100
    else if j == 2 then x / 0x1_0000 % 0x100
    else x / 0x100_0000
  }

  function WordAt(b: seq<Byte>, at: nat): U32
    requires at + 4 <= |b|
  {
    var b0: int, b1: int, b2: int, b3: int := b[at], b[at + 1], b[at + 2], b[at + 3];
    b0 + 0x100 * b1 + 0x1_0000 * b2 + 0x100_0000 * b3
  }

  lemma WordOfBytes(b: seq<Byte>, at: nat, x: U32)
    requires at + 4 <= |b| && forall j :: 0 <= j < 4 ==> b[at + j] == ByteOf(x, j)
    ensures WordAt(b, at) == x
  {
    assert b[at + 0] == ByteOf(x, 0) && b[at + 1] == ByteOf(x, 1);
    assert b[at + 2] == ByteOf(x, 2) && b[at + 3] == ByteOf(x, 3);
    Recompose(x);
  }

  lemma Recompose(x: int)
    requires 0 <= x
    ensures x % 0x100 + 0x100 * (x / 0x100 % 0x100) + 0x1_0000 * (x / 0x1_0000 % 0x100) + 0x100_0000 * (x / 0x100_0000) == x
  {
    var a := x / 0x100;
    var b := a / 0x100;
    assert x / 0x1_0000 == b;
    assert x / 0x100_0000 == b / 0x100;
  }

  lemma Decompose(b0: int, b1: int, b2: int, b3: int)
    requires 0 <= b0 < 0x100 && 0 <= b1 < 0x100 && 0 <= b2 < 0x100 && 0 <= b3 < 0x100
    ensures
      var x := b0 + 0x100 * b1 + 0x1_0000 * b2 + 0x100_0000 * b3;
      x % 0x100 == b0 && x / 0x100 % 0x100 == b1 && x / 0x1_0000 % 0x100 == b2 && x / 0x100_0000 == b3
  {
    var x := b0 + 0x100 * b1 + 0x1_0000 * b2 + 0x100_0000 * b3;
    assert x / 0x100 == b1 + 0x100 * b2 + 0x1_0000 * b3;
    assert x / 0x1_0000 == b2 + 0x100 * b3;
  }

  lemma BytesOfWord(b: seq<Byte>, at: nat, j: nat)
    requires at + 4 <= |b| && j < 4
    ensures ByteOf(WordAt(b, at), j) == b[at + j]
  {
    Decompose(b[at], b[at + 1], b[at + 2], b[at + 3]);
  }

  // ---- The struct in memory --------------------------------------------------------------

  function DepthWord(d: Depth): U32 {
    match d case ModeDefault => 0 case BpAll => 1 case BpAllOsd => 2
  }

  function StrictnessWord(s: Strictness): U32 {
    match s case Strict => 0 case Normal => 1 case Deep => 2
  }

  function EqWord(e: EqMode): U32 {
    match e case Off => 0 case Local => 1
  }

  function BoolByte(b: bool): Byte {
    if b then 1 else 0
  }

  /** The nine words the struct begins with. */
  function Word(p: Params, w: nat): U32
    requires w < 9
  {
    if w == 0 then p.size
    else if w == 1 then p.freqMin
    else if w == 2 then p.freqMax
    else if w == 3 then p.syncMin
    else if w == 4 then p.maxCand
    else if w == 5 then DepthWord(p.depth)
    else if w == 6 then StrictnessWord(p.strictness)
    else if w == 7 then EqWord(p.eqMode)
    else p.freqHint
  }

  function ImageByte(p: Params, i: nat): Byte
    requires WellFormed(p) && i < FULL
  {
    if i < 36 then ByteOf(Word(p, i / 4), i % 4)
    else if i == 36 then p.sicRounds
    else if i == 37 then BoolByte(p.sicEarly)
    else if i == 38 then BoolByte(p.hasApHint)
    else if i < 55 then p.apCall1[i - 39]
    else if i < 71 then p.apCall2[i - 55]
    else if i < 87 then p.apGrid[i - 71]
    else if i == 87 then p.pad
    else ByteOf(p.searchHz, i - 88)
  }

  function Image(p: Params): (b: seq<Byte>)
    requires WellFormed(p)
    ensures |b| == FULL
  {
    seq(FULL, i requires 0 <= i < FULL => ImageByte(p, i))
  }

  /** The bytes are a value of the struct: every enum and bool is in range. */
  function Check(b: seq<Byte>): (r: Option<ReadError>)
    requires |b| == FULL
  {
    if WordAt(b, DEPTH_AT) > 2 then Some(NotADepth)
    else if WordAt(b, STRICTNESS_AT) > 2 then Some(NotAStrictness)
    else if WordAt(b, EQ_MODE_AT) > 1 then Some(NotAnEqMode)
    else if b[SIC_EARLY_AT] > 1 then Some(SicEarlyNotABool)
    else if b[HAS_AP_HINT_AT] > 1 then Some(HasApHintNotABool)
    else None
  }

  /** Reading them as the struct. */
  function Parse(b: seq<Byte>): (p: Params)
    requires |b| == FULL && Check(b) == None
    ensures WellFormed(p)
  {
    Params(
      WordAt(b, 0), WordAt(b, 4), WordAt(b, 8), WordAt(b, 12), WordAt(b, 16),
      if WordAt(b, DEPTH_AT) == 0 then ModeDefault else if WordAt(b, DEPTH_AT) == 1 then BpAll else BpAllOsd,
      if WordAt(b, STRICTNESS_AT) == 0 then Strict else if WordAt(b, STRICTNESS_AT) == 1 then Normal else Deep,
      if WordAt(b, EQ_MODE_AT) == 0 then Off else Local,
      WordAt(b, 32),
      b[36], b[SIC_EARLY_AT] == 1, b[HAS_AP_HINT_AT] == 1,
      b[39..55], b[55..71], b[71..87], b[87], WordAt(b, SEARCH_AT))
  }

  lemma WordInImage(p: Params, w: nat)
    requires WellFormed(p) && w < 9
    ensures WordAt(Image(p), 4 * w) == Word(p, w)
  {
    forall j | 0 <= j < 4 ensures Image(p)[4 * w + j] == ByteOf(Word(p, w), j) {
      assert (4 * w + j) / 4 == w && (4 * w + j) % 4 == j;
    }
    WordOfBytes(Image(p), 4 * w, Word(p, w));
  }

  lemma SearchInImage(p: Params)
    requires WellFormed(p)
    ensures WordAt(Image(p), SEARCH_AT) == p.searchHz
  {
    forall j | 0 <= j < 4 ensures Image(p)[SEARCH_AT + j] == ByteOf(p.searchHz, j) {
    }
    WordOfBytes(Image(p), SEARCH_AT, p.searchHz);
  }

  lemma WordsInImage(p: Params)
    requires WellFormed(p)
    ensures
      var b := Image(p);
      && WordAt(b, 0) == p.size && WordAt(b, 4) == p.freqMin && WordAt(b, 8) == p.freqMax
      && WordAt(b, 12) == p.syncMin && WordAt(b, 16) == p.maxCand
      && WordAt(b, 20) == DepthWord(p.depth) && WordAt(b, 24) == StrictnessWord(p.strictness)
      && WordAt(b, 28) == EqWord(p.eqMode) && WordAt(b, 32) == p.freqHint
      && WordAt(b, 88) == p.searchHz
  {
    WordInImage(p, 0);
    WordInImage(p, 1);
    WordInImage(p, 2);
    WordInImage(p, 3);
    WordInImage(p, 4);
    WordInImage(p, 5);
    WordInImage(p, 6);
    WordInImage(p, 7);
    WordInImage(p, 8);
    SearchInImage(p);
  }

  lemma FieldsInImage(p: Params)
    requires WellFormed(p)
    ensures
      var b := Image(p);
      && b[36] == p.sicRounds && b[37] == BoolByte(p.sicEarly) && b[38] == BoolByte(p.hasApHint) && b[87] == p.pad
      && b[39..55] == p.apCall1 && b[55..71] == p.apCall2 && b[71..87] == p.apGrid
  {
  }

  lemma ImageIsValid(p: Params)
    requires WellFormed(p)
    ensures Check(Image(p)) == None
  {
    WordsInImage(p);
    FieldsInImage(p);
  }

  lemma WordsComeBack(p: Params)
    requires WellFormed(p) && Check(Image(p)) == None
    ensures
      var v := Parse(Image(p));
      && v.size == p.size && v.freqMin == p.freqMin && v.freqMax == p.freqMax && v.syncMin == p.syncMin
      && v.maxCand == p.maxCand && v.depth == p.depth && v.strictness == p.strictness && v.eqMode == p.eqMode
      && v.freqHint == p.freqHint && v.searchHz == p.searchHz
  {
    WordsInImage(p);
  }

  lemma BytesComeBack(p: Params)
    requires WellFormed(p) && Check(Image(p)) == None
    ensures
      var v := Parse(Image(p));
      && v.sicRounds == p.sicRounds && v.sicEarly == p.sicEarly && v.hasApHint == p.hasApHint && v.pad == p.pad
      && v.apCall1 == p.apCall1 && v.apCall2 == p.apCall2 && v.apGrid == p.apGrid
  {
    FieldsInImage(p);
  }

  /** A struct survives being laid out and read back. */
  lemma ParseImage(p: Params)
    requires WellFormed(p)
    ensures Check(Image(p)) == None && Parse(Image(p)) == p
  {
    ImageIsValid(p);
    WordsComeBack(p);
    BytesComeBack(p);
  }

  /** And valid bytes survive being read and laid out, every byte of them. */
  lemma ImageParse(b: seq<Byte>)
    requires |b| == FULL && Check(b) == None
    ensures Image(Parse(b)) == b
  {
    forall i | 0 <= i < FULL ensures ImageByte(Parse(b), i) == b[i] {
      if i < 36 {
        WordOfParse(b, i / 4);
        BytesOfWord(b, i / 4 * 4, i % 4);
      } else if i >= 88 {
        BytesOfWord(b, SEARCH_AT, i - 88);
      }
    }
  }

  lemma WordOfParse(b: seq<Byte>, w: nat)
    requires |b| == FULL && Check(b) == None && w < 9
    ensures Word(Parse(b), w) == WordAt(b, 4 * w)
  {
  }

  // ---- Declared sizes ------------------------------------------------------------------------

  /** How much of the struct the caller knows: 0 or too much means all of it. */
  function Declared(mem: seq<Byte>): (n: nat)
    requires 4 <= |mem|
    ensures 0 < n <= FULL
  {
    var declared := WordAt(mem, 0);
    if declared == 0 || declared > FULL then FULL else declared
  }

  /** The caller's memory covers its own declaration (and its `size` field). */
  predicate Covers(mem: seq<Byte>) {
    4 <= |mem| && Declared(mem) <= |mem|
  }

  /** `write_size_versioned`, byte by byte: the prefix is the struct's, its first word
      the size written, the rest the caller's. */
  function Written(mem: seq<Byte>, image: seq<Byte>): (r: seq<Byte>)
    requires Covers(mem) && |image| == FULL
    ensures |r| == |mem|
  {
    var n := Declared(mem);
    seq(|mem|, i requires 0 <= i < |mem| =>
      if i < 4 then ByteOf(n, i) else if i < n then image[i] else mem[i])
  }

  method WriteSizeVersioned(out: array<Byte>, value: Params)
    requires WellFormed(value) && Covers(out[..])
    modifies out
    ensures out[..] == Written(old(out[..]), Image(value))
  {
    ghost var was := out[..];
    var n := Declared(out[..]);
    var image := Image(value);
    forall i | 0 <= i < n {
      out[i] := image[i];
    }
    out[0], out[1], out[2], out[3] := ByteOf(n, 0), ByteOf(n, 1), ByteOf(n, 2), ByteOf(n, 3);
    forall i | 0 <= i < out.Length ensures out[i] == Written(was, image)[i] {
    }
  }

  /** `mfsk_decode_params_init` keeps its hands off everything past the declared size,
      and tells the caller how much it wrote. */
  lemma InitKeepsTheRest(mem: seq<Byte>, p: Params, i: nat)
    requires WellFormed(p) && Covers(mem) && i < |mem|
    ensures
      var out := Written(mem, Image(p));
      && WordAt(out, 0) == Declared(mem) && Declared(out) == Declared(mem)
      && (i >= Declared(mem) ==> out[i] == mem[i])
      && (4 <= i < Declared(mem) ==> out[i] == Image(p)[i])
  {
    var n := Declared(mem);
    WordOfBytes(Written(mem, Image(p)), 0, n);
    if 4 > i >= n {
      BytesOfWord(mem, 0, i);
    }
  }

  // ---- read_params -----------------------------------------------------------------------------

  /** The caller's prefix over the defaults. */
  function Overlay(mem: seq<Byte>, dst: Params): (b: seq<Byte>)
    requires Covers(mem) && WellFormed(dst)
    ensures |b| == FULL
  {
    mem[..Declared(mem)] + Image(dst)[Declared(mem)..]
  }

  function ReadParams(mem: seq<Byte>, dst: Params): Result<Params>
    requires Covers(mem) && WellFormed(dst)
  {
    var img := Overlay(mem, dst);
    match Check(img)
    case Some(e) => Err(e)
    case None =>
      var v := Parse(img).(size := FULL);
      Ok(if v.depth == ModeDefault then v.(depth := dst.depth) else v)
  }

  /** The defaults' bytes, then the caller's prefix over them. */
  method Seed(src: array<Byte>, dst: Params) returns (img: array<Byte>)
    requires WellFormed(dst) && Covers(src[..])
    ensures fresh(img) && img[..] == Overlay(src[..], dst)
  {
    var n := Declared(src[..]);
    var defaults := Image(dst);
    img := new Byte[FULL](_ => 0);
    forall i | 0 <= i < FULL {
      img[i] := defaults[i];
    }
    forall i | 0 <= i < n {
      img[i] := src[i];
    }
    assert img[..] == Overlay(src[..], dst);
  }

  /** Every enum and bool, before any of it is read as the struct. */
  method CheckImage(img: array<Byte>) returns (e: Option<ReadError>)
    requires img.Length == FULL
    ensures e == Check(img[..])
  {
    if WordAt(img[..], DEPTH_AT) > 2 { return Some(NotADepth); }
    if WordAt(img[..], STRICTNESS_AT) > 2 { return Some(NotAStrictness); }
    if WordAt(img[..], EQ_MODE_AT) > 1 { return Some(NotAnEqMode); }
    if img[SIC_EARLY_AT] > 1 { return Some(SicEarlyNotABool); }
    if img[HAS_AP_HINT_AT] > 1 { return Some(HasApHintNotABool); }
    e := None;
  }

  method ReadParamsChecked(src: array<Byte>, dst: Params) returns (r: Result<Params>)
    requires WellFormed(dst) && Covers(src[..])
    ensures r == ReadParams(src[..], dst)
  {
    var img := Seed(src, dst);
    var e := CheckImage(img);
    if e.Some? { return Err(e.value); }
    var v := Parse(img[..]).(size := FULL);
    if v.depth == ModeDefault {
      v := v.(depth := dst.depth);
    }
    r := Ok(v);
  }

  /** What an accepted read returns, byte by byte: the caller's bytes up to the declared
      size and the defaults' after it. Size and depth are apart. */
  lemma ReadIsThePrefixOverDefaults(mem: seq<Byte>, dst: Params, i: nat)
    requires Covers(mem) && WellFormed(dst) && ReadParams(mem, dst).Ok?
    requires 4 <= i < FULL && !(DEPTH_AT <= i < DEPTH_AT + 4)
    ensures
      var v := ReadParams(mem, dst).value;
      WellFormed(v) && Image(v)[i] == if i < Declared(mem) then mem[i] else Image(dst)[i]
  {
    var img := Overlay(mem, dst);
    ImageParse(img);
    var v, got := Parse(img), ReadParams(mem, dst).value;
    assert Image(v)[i] == ImageByte(v, i) == img[i];
    SameBytes(v, got, i);
  }

  lemma SameBytes(v: Params, got: Params, i: nat)
    requires WellFormed(v) && WellFormed(got) && got == v.(size := got.size, depth := got.depth)
    requires 4 <= i < FULL && !(DEPTH_AT <= i < DEPTH_AT + 4)
    ensures ImageByte(got, i) == ImageByte(v, i)
  {
    if i < 36 {
      assert i / 4 != 0 && i / 4 != 5;
      assert Word(got, i / 4) == Word(v, i / 4);
    }
  }

  /** The size is the full one; a depth of "mode default", the caller's or left by a
      short struct, resolves to the default's. */
  lemma SizeAndDepthResolve(mem: seq<Byte>, dst: Params)
    requires Covers(mem) && WellFormed(dst) && ReadParams(mem, dst).Ok?
    ensures
      var v, depth := ReadParams(mem, dst).value, WordAt(Overlay(mem, dst), DEPTH_AT);
      && v.size == FULL
      && (if depth == 0 then v.depth == dst.depth else DepthWord(v.depth) == depth)
      && (Declared(mem) <= DEPTH_AT ==> v.depth == dst.depth)
  {
    if Declared(mem) <= DEPTH_AT {
      assert WordAt(Overlay(mem, dst), DEPTH_AT) == WordAt(Image(dst), DEPTH_AT);
      WordInImage(dst, 5);
    }
  }

  /** The field wholly inside the prefix, or wholly past it, for the word fields. */
  lemma WordFieldIsTheCallers(mem: seq<Byte>, dst: Params, w: nat)
    requires Covers(mem) && WellFormed(dst) && 1 <= w < 9 && ReadParams(mem, dst).Ok?
    ensures
      var v, n := ReadParams(mem, dst).value, Declared(mem);
      && (4 * w + 4 <= n && (w != 5 || WordAt(mem, 20) != 0) ==> Word(v, w) == WordAt(mem, 4 * w))
      && (n <= 4 * w ==> Word(v, w) == Word(dst, w))
  {
    WordOfRead(mem, dst, w);
    WordOfOverlay(mem, dst, w);
    WordInImage(dst, w);
  }

  /** The words an accepted read returns are the overlay's, but a depth word of 0. */
  lemma WordOfRead(mem: seq<Byte>, dst: Params, w: nat)
    requires Covers(mem) && WellFormed(dst) && 1 <= w < 9 && ReadParams(mem, dst).Ok?
    ensures
      var v, x := ReadParams(mem, dst).value, WordAt(Overlay(mem, dst), 4 * w);
      Word(v, w) == if w == 5 && x == 0 then Word(dst, w) else x
  {
    WordOfParse(Overlay(mem, dst), w);
  }

  lemma WordOfOverlay(mem: seq<Byte>, dst: Params, w: nat)
    requires Covers(mem) && WellFormed(dst) && w < 9
    ensures 4 * w + 4 <= Declared(mem) ==> WordAt(Overlay(mem, dst), 4 * w) == WordAt(mem, 4 * w)
    ensures Declared(mem) <= 4 * w ==> WordAt(Overlay(mem, dst), 4 * w) == WordAt(Image(dst), 4 * w)
  {
    OverlaidAt(mem, dst, 4 * w);
    OverlaidAt(mem, dst, 4 * w + 1);
    OverlaidAt(mem, dst, 4 * w + 2);
    OverlaidAt(mem, dst, 4 * w + 3);
  }

  lemma OverlaidAt(mem: seq<Byte>, dst: Params, i: nat)
    requires Covers(mem) && WellFormed(dst) && i < FULL
    ensures Overlay(mem, dst)[i] == if i < Declared(mem) then mem[i] else Image(dst)[i]
  {
  }

  /** What the caller's first `n` bytes make of an enum at `at` whose discriminants go
      up to `limit`: a covered low byte above the limit, or a covered higher byte that
      is not zero, puts it out of range; what is not covered is the default's. */
  predicate EnumOutOfRange(mem: seq<Byte>, n: nat, at: nat, limit: Byte)
    requires n <= |mem|
  {
    (at < n && mem[at] > limit) || (at + 1 < n && mem[at + 1] != 0)
    || (at + 2 < n && mem[at + 2] != 0) || (at + 3 < n && mem[at + 3] != 0)
  }

  lemma OverlaidEnum(mem: seq<Byte>, dst: Params, w: nat, limit: Byte)
    requires Covers(mem) && WellFormed(dst) && 5 <= w < 8 && Word(dst, w) <= limit
    ensures WordAt(Overlay(mem, dst), 4 * w) > limit <==> EnumOutOfRange(mem, Declared(mem), 4 * w, limit)
  {
    OverlaidByte(mem, dst, w, 0);
    OverlaidByte(mem, dst, w, 1);
    OverlaidByte(mem, dst, w, 2);
    OverlaidByte(mem, dst, w, 3);
  }

  lemma OverlaidByte(mem: seq<Byte>, dst: Params, w: nat, j: nat)
    requires Covers(mem) && WellFormed(dst) && w < 9 && j < 4
    ensures
      var at := 4 * w + j;
      Overlay(mem, dst)[at] == if at < Declared(mem) then mem[at] else ByteOf(Word(dst, w), j)
  {
    var at := 4 * w + j;
    assert at / 4 == w && at % 4 == j;
    assert Image(dst)[at] == ImageByte(dst, at);
  }

  /** Refused exactly when one of the five checks fails on what the caller declared, and
      each check looks at nothing past it: an enum covered in part is its covered bytes
      over a valid default's, a bool is one byte. */
  lemma RefusedExactly(mem: seq<Byte>, dst: Params)
    requires Covers(mem) && WellFormed(dst)
    ensures
      var n := Declared(mem);
      ReadParams(mem, dst).Err? <==>
        || EnumOutOfRange(mem, n, DEPTH_AT, 2)
        || EnumOutOfRange(mem, n, STRICTNESS_AT, 2)
        || EnumOutOfRange(mem, n, EQ_MODE_AT, 1)
        || (SIC_EARLY_AT < n && mem[SIC_EARLY_AT] > 1)
        || (HAS_AP_HINT_AT < n && mem[HAS_AP_HINT_AT] > 1)
  {
    OverlaidEnum(mem, dst, 5, 2);
    OverlaidEnum(mem, dst, 6, 2);
    OverlaidEnum(mem, dst, 7, 1);
    FieldsInImage(dst);
    BoolOverlaid(mem, dst, SIC_EARLY_AT);
    BoolOverlaid(mem, dst, HAS_AP_HINT_AT);
  }

  lemma BoolOverlaid(mem: seq<Byte>, dst: Params, at: nat)
    requires Covers(mem) && WellFormed(dst) && (at == SIC_EARLY_AT || at == HAS_AP_HINT_AT)
    ensures Overlay(mem, dst)[at] > 1 <==> at < Declared(mem) && mem[at] > 1
  {
    assert Image(dst)[at] == ImageByte(dst, at);
  }

  /** Initialising a struct of any declared size and reading it back over the same
      defaults returns the defaults. */
  lemma InitThenReadIsDefaults(mem: seq<Byte>, d: Params)
    requires Covers(mem) && WellFormed(d) && d.size == FULL
    ensures Covers(Written(mem, Image(d)))
    ensures ReadParams(Written(mem, Image(d)), d) == Ok(d)
  {
    InitOverlay(mem, d);
    var img := Overlay(Written(mem, Image(d)), d);
    ParseImage(d.(size := WordAt(img, 0)));
  }

  lemma InitOverlay(mem: seq<Byte>, d: Params)
    requires Covers(mem) && WellFormed(d) && d.size == FULL
    ensures Covers(Written(mem, Image(d)))
    ensures
      var img := Overlay(Written(mem, Image(d)), d);
      img == Image(d.(size := WordAt(img, 0)))
  {
    InitKeepsTheRest(mem, d, 0);
    var img := Overlay(Written(mem, Image(d)), d);
    var seeded := d.(size := WordAt(img, 0));
    forall i | 0 <= i < FULL ensures img[i] == Image(seeded)[i] {
      SeededByte(mem, d, i);
    }
  }

  lemma SeededByte(mem: seq<Byte>, d: Params, i: nat)
    requires Covers(mem) && WellFormed(d) && d.size == FULL && i < FULL
    ensures Covers(Written(mem, Image(d)))
    ensures
      var img := Overlay(Written(mem, Image(d)), d);
      img[i] == ImageByte(d.(size := WordAt(img, 0)), i)
  {
    var out := Written(mem, Image(d));
    InitKeepsTheRest(mem, d, 0);
    var img := Overlay(out, d);
    var seeded := d.(size := WordAt(img, 0));
    if i < 4 {
      BytesOfWord(img, 0, i);
    } else {
      assert img[i] == Image(d)[i] == ImageByte(d, i);
      if i < 36 {
        assert i / 4 > 0 && Word(seeded, i / 4) == Word(d, i / 4);
      }
    }
  }

  // ---- By the caller's size word ---------------------------------------------------------------

  /** The word the caller's first four bytes spell. */
  function SizeWord(mem: seq<Byte>): int
    requires 4 <= |mem|
  {
    var b0: int, b1: int, b2: int, b3: int := mem[0], mem[1], mem[2], mem[3];
    b0 + 0x100 * b1 + 0x1_0000 * b2 + 0x100_0000 * b3
  }

  /** A size word of 0, or of 92 and more, copies all 92 bytes and tells the caller 92;
      one of 1 to 91 copies exactly that many. Nothing past them changes but the size
      word itself. */
  lemma WriteBySizeWord(mem: seq<Byte>, p: Params, i: nat)
    requires WellFormed(p) && 4 <= |mem| && i < |mem|
    requires |mem| >= if 1 <= SizeWord(mem) < 92 then SizeWord(mem) else 92
    ensures Covers(mem)
    ensures
      var w, out := SizeWord(mem), Written(mem, Image(p));
      && |out| == |mem|
      && out[1] == out[2] == out[3] == 0
      && (w == 0 || w >= 92 ==> out[0] == 92 && (4 <= i < 92 ==> out[i] == Image(p)[i]) && (i >= 92 ==> out[i] == mem[i]))
      && (1 <= w < 92 ==> out[0] == w && (4 <= i < w ==> out[i] == Image(p)[i]) && (i >= 4 && i >= w ==> out[i] == mem[i]))
  {
    assert WordAt(mem, 0) == SizeWord(mem);
  }

  /** And an accepted read takes the caller's bytes up to there, the defaults' from
      there on. */
  lemma ReadBySizeWord(mem: seq<Byte>, dst: Params, i: nat)
    requires WellFormed(dst) && 4 <= |mem| && 4 <= i < 92 && !(20 <= i < 24)
    requires |mem| >= if 1 <= SizeWord(mem) < 92 then SizeWord(mem) else 92
    ensures Covers(mem)
    ensures
      var w, r := SizeWord(mem), ReadParams(mem, dst);
      r.Ok? ==>
        && WellFormed(r.value) && r.value.size == 92
        && (w == 0 || w >= 92 ==> Image(r.value)[i] == mem[i])
        && (1 <= w < 92 ==> Image(r.value)[i] == if i < w then mem[i] else Image(dst)[i])
  {
    assert WordAt(mem, 0) == SizeWord(mem);
    if ReadParams(mem, dst).Ok? {
      ReadIsThePrefixOverDefaults(mem, dst, i);
    }
  }

  /** The depth is the caller's if its low byte is in the prefix and not 0, else the
      defaults'. */
  lemma DepthBySizeWord(mem: seq<Byte>, dst: Params)
    requires WellFormed(dst) && 4 <= |mem|
    requires |mem| >= if 1 <= SizeWord(mem) < 92 then SizeWord(mem) else 92
    ensures Covers(mem)
    ensures
      var w, r := SizeWord(mem), ReadParams(mem, dst);
      r.Ok? ==>
        if 1 <= w <= 20 then r.value.depth == dst.depth
        else
          && (mem[20] == 0 ==> r.value.depth == dst.depth)
          && (mem[20] == 1 ==> r.value.depth == BpAll)
          && (mem[20] == 2 ==> r.value.depth == BpAllOsd)
  {
    assert WordAt(mem, 0) == SizeWord(mem);
    if ReadParams(mem, dst).Ok? {
      SizeAndDepthResolve(mem, dst);
      OverlaidByte(mem, dst, 5, 0);
      FieldOffsets(Overlay(mem, dst));
    }
  }

  /** Which bytes each field is read from. */
  lemma FieldOffsets(b: seq<Byte>)
    requires |b| == 92 && Check(b) == None
    ensures
      var p := Parse(b);
      && p.size == SizeWord(b[0..4]) && p.freqMin == SizeWord(b[4..8]) && p.freqMax == SizeWord(b[8..12])
      && p.syncMin == SizeWord(b[12..16]) && p.maxCand == SizeWord(b[16..20])
      && (p.depth == ModeDefault <==> b[20] == 0) && (p.depth == BpAll <==> b[20] == 1) && (p.depth == BpAllOsd <==> b[20] == 2)
      && (p.strictness == Strict <==> b[24] == 0) && (p.strictness == Normal <==> b[24] == 1)
      && (p.strictness == Deep <==> b[24] == 2)
      && (p.eqMode == Off <==> b[28] == 0) && (p.eqMode == Local <==> b[28] == 1)
      && p.freqHint == SizeWord(b[32..36]) && p.sicRounds == b[36]
      && (p.sicEarly <==> b[37] == 1) && (p.hasApHint <==> b[38] == 1)
      && p.apCall1 == b[39..55] && p.apCall2 == b[55..71] && p.apGrid == b[71..87] && p.pad == b[87]
      && p.searchHz == SizeWord(b[88..92])
  {
  }

  /** Which error is reported: that of the first field out of range, in this order. */
  lemma FirstErrorIsReported(mem: seq<Byte>, dst: Params)
    requires Covers(mem) && WellFormed(dst)
    ensures
      var n, r := Declared(mem), ReadParams(mem, dst);
      var depth, strictness, eq :=
        EnumOutOfRange(mem, n, 20, 2), EnumOutOfRange(mem, n, 24, 2), EnumOutOfRange(mem, n, 28, 1);
      && (depth ==> r == Err(NotADepth))
      && (!depth && strictness ==> r == Err(NotAStrictness))
      && (!depth && !strictness && eq ==> r == Err(NotAnEqMode))
      && (!depth && !strictness && !eq && 37 < n && mem[37] > 1 ==> r == Err(SicEarlyNotABool))
      && (!depth && !strictness && !eq && !(37 < n && mem[37] > 1) && 38 < n && mem[38] > 1 ==> r == Err(HasApHintNotABool))
  {
    OverlaidEnum(mem, dst, 5, 2);
    OverlaidEnum(mem, dst, 6, 2);
    OverlaidEnum(mem, dst, 7, 1);
    BoolOverlaid(mem, dst, 37);
    BoolOverlaid(mem, dst, 38);
  }
}

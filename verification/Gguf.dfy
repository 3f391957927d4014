/** The GGUF header reader: typed values with nested arrays, the metadata block,
    and the scan of the tensor names. Text is kept as bytes. */
module Gguf {
  import opened Text

  type Byte = n: nat | n < 256
  type Bytes = seq<Byte>

  const MAX_TEXT: nat := 64 * 1024 * 1024
  const MAX_DEPTH: nat := 8

  // --- Little-endian numbers ------------------------------------------------

  function Base(width: nat): (b: nat)
    ensures b > 0
  {
    if width == 0 then 1 else 256 * Base(width - 1)
  }

  function Le(n: nat, width: nat): (b: Bytes)
    ensures |b| == width
  {
    if width == 0 then [] else [n % 256] + Le(n / 256, width - 1)
  }

  function LeValue(b: Bytes): nat {
    if b == [] then 0 else b[0] + 256 * LeValue(b[1..])
  }

  lemma {:induction false} LeRoundTrip(n: nat, width: nat)
    requires n < Base(width)
    ensures LeValue(Le(n, width)) == n
  {
    if width > 0 {
      LeRoundTrip(n / 256, width - 1);
      assert Le(n, width)[1..] == Le(n / 256, width - 1);
    }
  }

  /** Two's complement. */
  function Signed(n: nat, width: nat): int {
    if 2 * n >= Base(width) then n - Base(width) else n
  }

  // --- Reading --------------------------------------------------------------

  /** A metadata scalar; a float is kept as its bits. */
  datatype GVal = U(u: nat) | I(i: int) | F(width: nat, bits: nat) | Bool(b: bool) | Str(text: Bytes)

  datatype Read<T> = Fail | Got(value: T, rest: Bytes)

  function ReadN(s: Bytes, n: nat): (r: Read<Bytes>)
    ensures r.Got? <==> n <= |s|
    ensures r.Got? ==> s == r.value + r.rest && |r.value| == n
  {
    if n <= |s| then Got(s[..n], s[n..]) else Fail
  }

  function ReadUint(s: Bytes, width: nat): (r: Read<nat>)
    ensures r.Got? ==> |s| == width + |r.rest|
  {
    match ReadN(s, width)
    case Fail => Fail
    case Got(b, rest) => Got(LeValue(b), rest)
  }

  function ReadText(s: Bytes): (r: Read<Bytes>)
    ensures r.Got? ==> |s| == 8 + |r.value| + |r.rest|
  {
    match ReadUint(s, 8)
    case Fail => Fail
    case Got(n, rest) => if n > MAX_TEXT then Fail else ReadN(rest, n)
  }

  function Width(t: nat): nat {
    if t == 0 || t == 1 || t == 7 then 1
    else if t == 2 || t == 3 then 2
    else if t == 4 || t == 5 || t == 6 then 4
    else 8
  }

  predicate IsScalar(t: nat) {
    t <= 12 && t != 8 && t != 9
  }

  function Scalar(t: nat, n: nat): GVal
    requires IsScalar(t)
  {
    if t == 1 || t == 3 || t == 5 || t == 11 then I(Signed(n, Width(t)))
    else if t == 6 || t == 12 then F(Width(t), n)
    else if t == 7 then Bool(n != 0)
    else U(n)
  }

  /** `rd_val`: an array is consumed but yields nothing. */
  function ReadVal(s: Bytes, t: nat, depth: nat): (r: Read<Option<GVal>>)
    ensures r.Got? ==> |r.rest| < |s|
    decreases |s|, 0
  {
    if IsScalar(t) then
      match ReadUint(s, Width(t))
      case Fail => Fail
      case Got(n, rest) => Got(Some(Scalar(t, n)), rest)
    else if t == 8 then
      match ReadText(s)
      case Fail => Fail
      case Got(b, rest) => Got(Some(Str(b)), rest)
    else if t == 9 && depth < MAX_DEPTH then
      match ReadUint(s, 4)
      case Fail => Fail
      case Got(et, s1) =>
        match ReadUint(s1, 8)
        case Fail => Fail
        case Got(count, s2) =>
          match ReadElems(s2, et, count, depth + 1)
          case Fail => Fail
          case Got(_, rest) => Got(None, rest)
    else Fail
  }

  function ReadElems(s: Bytes, et: nat, count: nat, depth: nat): (r: Read<()>)
    ensures r.Got? ==> |r.rest| <= |s|
    decreases |s|, 1
  {
    if count == 0 then Got((), s)
    else
      match ReadVal(s, et, depth)
      case Fail => Fail
      case Got(_, rest) => ReadElems(rest, et, count - 1, depth)
  }

  type Meta = map<Bytes, GVal>

  function ReadKvs(s: Bytes, n: nat, m: Meta): (r: Read<Meta>)
    ensures r.Got? ==> |r.rest| <= |s|
    decreases |s|
  {
    if n == 0 then Got(m, s)
    else
      match ReadText(s)
      case Fail => Fail
      case Got(k, s1) =>
        match ReadUint(s1, 4)
        case Fail => Fail
        case Got(t, s2) =>
          match ReadVal(s2, t, 0)
          case Fail => Fail
          case Got(v, rest) => ReadKvs(rest, n - 1, if v.Some? then m[k := v.value] else m)
  }

  const MAGIC: Bytes := [0x47, 0x47, 0x55, 0x46]

  /** Magic, version, tensor count and key count. */
  function ReadHeader(s: Bytes): (r: Read<(nat, nat)>)
    ensures r.Got? ==> |s| == 24 + |r.rest|
  {
    match ReadN(s, 4)
    case Fail => Fail
    case Got(magic, s1) =>
      if magic != MAGIC then Fail
      else
        match ReadUint(s1, 4)
        case Fail => Fail
        case Got(_, s2) =>
          match ReadUint(s2, 8)
          case Fail => Fail
          case Got(tensors, s3) =>
            match ReadUint(s3, 8)
            case Fail => Fail
            case Got(kvs, rest) => Got((tensors, kvs), rest)
  }

  /** `read_gguf_meta`, with the bytes left after the metadata block. */
  function ReadMeta(s: Bytes): (r: Read<Meta>)
    ensures r.Got? ==> |r.rest| <= |s|
  {
    match ReadHeader(s)
    case Fail => Fail
    case Got(counts, rest) => ReadKvs(rest, counts.1, map[])
  }

  function LowerByte(b: Byte): Byte {
    if 0x41 <= b <= 0x5A then b + 32 else b
  }

  predicate MatchesAt(s: Bytes, p: Bytes, at: nat) {
    at + |p| <= |s| && forall i :: 0 <= i < |p| ==> LowerByte(s[at + i]) == p[i]
  }

  predicate Mentions(s: Bytes, p: Bytes) {
    exists at :: 0 <= at <= |s| && MatchesAt(s, p, at)
  }

  const NEXTN: Bytes := [0x6E, 0x65, 0x78, 0x74, 0x6E]
  const MTP: Bytes := [0x6D, 0x74, 0x70]

  predicate IsMtpName(name: Bytes) {
    Mentions(name, NEXTN) || Mentions(name, MTP)
  }

  function SkipDims(s: Bytes, n: nat): (r: Read<()>)
    ensures r.Got? ==> |s| == 8 * n + |r.rest|
    decreases |s|
  {
    if n == 0 then Got((), s)
    else
      match ReadUint(s, 8)
      case Fail => Fail
      case Got(_, rest) => SkipDims(rest, n - 1)
  }

  /** The rest of a tensor info after its name. */
  function SkipInfo(s: Bytes): (r: Read<()>)
    ensures r.Got? ==> |s| >= 16 + |r.rest|
  {
    match ReadUint(s, 4)
    case Fail => Fail
    case Got(nd, s1) =>
      match SkipDims(s1, nd)
      case Fail => Fail
      case Got(_, s2) =>
        match ReadUint(s2, 4)
        case Fail => Fail
        case Got(_, s3) =>
          match ReadUint(s3, 8)
          case Fail => Fail
          case Got(_, rest) => Got((), rest)
  }

  function ScanTensors(s: Bytes, n: nat): bool
    decreases |s|
  {
    if n == 0 then false
    else
      match ReadText(s)
      case Fail => false
      case Got(name, s1) =>
        if IsMtpName(name) then true
        else
          match SkipInfo(s1)
          case Fail => false
          case Got(_, rest) => ScanTensors(rest, n - 1)
  }

  /** `has_mtp_tensors`. */
  function HasMtpTensors(s: Bytes): bool {
    match ReadHeader(s)
    case Fail => false
    case Got(counts, rest) =>
      match ReadKvs(rest, counts.1, map[])
      case Fail => false
      case Got(_, infos) => ScanTensors(infos, counts.0)
  }

  // --- The scalars of the format --------------------------------------------

  /** How many bytes a value of a scalar type takes. */
  function FormatWidth(t: nat): nat {
    match t
    case 0 => 1
    case 1 => 1
    case 2 => 2
    case 3 => 2
    case 4 => 4
    case 5 => 4
    case 6 => 4
    case 7 => 1
    case _ => 8
  }

  function At(b: Bytes, i: nat): nat
    requires i < |b|
  {
    b[i]
  }

  /** The little-endian value of one, two, four or eight bytes. */
  function Little(b: Bytes): nat
    requires |b| == 1 || |b| == 2 || |b| == 4 || |b| == 8
  {
    if |b| == 1 then At(b, 0)
    else if |b| == 2 then At(b, 0) + 0x100 * At(b, 1)
    else if |b| == 4 then At(b, 0) + 0x100 * At(b, 1) + 0x1_0000 * At(b, 2) + 0x100_0000 * At(b, 3)
    else At(b, 0) + 0x100 * At(b, 1) + 0x1_0000 * At(b, 2) + 0x100_0000 * At(b, 3)
         + 0x1_0000_0000 * At(b, 4) + 0x100_0000_0000 * At(b, 5)
         + 0x1_0000_0000_0000 * At(b, 6) + 0x100_0000_0000_0000 * At(b, 7)
  }

  /** What the bits `n` stand for: unsigned, two's complement, a float or a truth. */
  function FormatScalar(t: nat, n: nat): GVal {
    match t
    case 0 => U(n)
    case 1 => I(if n < 0x80 then n else n - 0x100)
    case 2 => U(n)
    case 3 => I(if n < 0x8000 then n else n - 0x1_0000)
    case 4 => U(n)
    case 5 => I(if n < 0x8000_0000 then n else n - 0x1_0000_0000)
    case 6 => F(4, n)
    case 7 => Bool(n != 0)
    case 11 => I(if n < 0x8000_0000_0000_0000 then n else n - 0x1_0000_0000_0000_0000)
    case 12 => F(8, n)
    case _ => U(n)
  }

  lemma Powers()
    ensures Base(0) == 1 && Base(1) == 0x100 && Base(2) == 0x1_0000 && Base(3) == 0x100_0000
    ensures Base(4) == 0x1_0000_0000 && Base(5) == 0x100_0000_0000 && Base(6) == 0x1_0000_0000_0000
    ensures Base(7) == 0x100_0000_0000_0000 && Base(8) == 0x1_0000_0000_0000_0000
  {
    assert Base(3) == 256 * (256 * (256 * Base(0)));
    assert Base(6) == 256 * (256 * (256 * Base(3)));
    assert Base(8) == 256 * (256 * Base(6));
  }

  lemma TablesAgree(t: nat, n: nat)
    requires IsScalar(t)
    ensures Width(t) == FormatWidth(t) && Scalar(t, n) == FormatScalar(t, n)
  {
    Powers();
    hide Base;
  }

  lemma LeIsLittle(b: Bytes)
    requires |b| == 1 || |b| == 2 || |b| == 4 || |b| == 8
    ensures LeValue(b) == Little(b)
  {
    if |b| == 1 {
      LeStep(b);
    } else if |b| == 2 {
      LeStep(b);
      LeStep(b[1..]);
    } else {
      LeFour(b);
      if |b| == 8 { LeFour(b[4..]); }
    }
  }

  lemma LeStep(b: Bytes)
    requires b != []
    ensures LeValue(b) == b[0] + 256 * LeValue(b[1..])
  {}

  lemma LeFour(b: Bytes)
    requires |b| >= 4
    ensures LeValue(b) == b[0] + 0x100 * b[1] + 0x1_0000 * b[2] + 0x100_0000 * b[3] + 0x1_0000_0000 * LeValue(b[4..])
  {
    LeStep(b);
    LeStep(b[1..]);
    LeStep(b[2..]);
    LeStep(b[3..]);
    assert b[1..][1..] == b[2..] && b[2..][1..] == b[3..] && b[3..][1..] == b[4..];
    hide LeValue;
  }

  /** A scalar of types 0 to 7 and 10 to 12 is read exactly when its bytes are
      there; it is what the format says they stand for, and nothing else goes. */
  lemma ScalarReads(s: Bytes, t: nat, depth: nat)
    requires t <= 12 && t != 8 && t != 9
    ensures ReadVal(s, t, depth) ==
      var k := FormatWidth(t);
      if k <= |s| then Got(Some(FormatScalar(t, Little(s[..k]))), s[k..]) else Fail
  {
    var k := FormatWidth(t);
    if k <= |s| {
      LeIsLittle(s[..k]);
      TablesAgree(t, LeValue(s[..k]));
    } else {
      TablesAgree(t, 0);
    }
    hide LeValue, Little, Scalar, FormatScalar, Width;
  }

  /** Text is a 64-bit length and that many bytes, at most 64 MiB. */
  lemma TextReads(s: Bytes, depth: nat)
    ensures ReadVal(s, 8, depth) ==
      if |s| >= 8 && Little(s[..8]) <= 67_108_864 && 8 + Little(s[..8]) <= |s|
      then Got(Some(Str(s[8..8 + Little(s[..8])])), s[8 + Little(s[..8])..]) else Fail
  {
    if |s| >= 8 { LeIsLittle(s[..8]); }
    hide LeValue, Little;
    assert |s| >= 8 ==> forall n :: 8 <= n <= |s| ==> s[8..][..n - 8] == s[8..n] && s[8..][n - 8..] == s[n..];
  }

  /** An unknown type, or an array below eight others, is refused. */
  lemma Refused(s: Bytes, t: nat, depth: nat)
    requires t > 12 || (t == 9 && depth >= 8)
    ensures ReadVal(s, t, depth) == Fail
  {}

  /** A header is the four letters, any version, and two 64-bit counts; without it
      there is nothing to read. */
  lemma HeaderReads(s: Bytes)
    ensures ReadHeader(s) ==
      if |s| >= 24 && s[..4] == [0x47, 0x47, 0x55, 0x46]
      then Got((Little(s[8..16]), Little(s[16..24])), s[24..]) else Fail
    ensures ReadHeader(s) == Fail ==> ReadMeta(s) == Fail && !HasMtpTensors(s)
  {
    if |s| >= 24 {
      LeIsLittle(s[8..16]);
      LeIsLittle(s[16..24]);
      assert s[4..][4..] == s[8..] && s[8..][..8] == s[8..16] && s[8..][8..] == s[16..];
      assert s[16..][..8] == s[16..24] && s[16..][8..] == s[24..];
    }
    hide LeValue, Little;
  }

  // --- Well-formed headers and their encoding -------------------------------

  /** A value of the format: a number of a scalar type, text, or an array. */
  datatype Val =
    | Num(t: nat, n: nat)
    | Text(bytes: Bytes)
    | Array(et: nat, elems: Vals)
  datatype Vals = Nil | Cons(head: Val, tail: Vals)

  function TypeOf(v: Val): nat {
    match v
    case Num(t, _) => t
    case Text(_) => 8
    case Array(_, _) => 9
  }

  function Count(vs: Vals): nat {
    match vs
    case Nil => 0
    case Cons(_, tail) => 1 + Count(tail)
  }

  predicate WellFormed(v: Val) {
    match v
    case Num(t, n) => t <= 12 && t != 8 && t != 9 && n < Base(FormatWidth(t))
    case Text(b) => |b| < Base(8)
    case Array(et, vs) => et < Base(4) && Count(vs) < Base(8) && AllOf(vs, et)
  }

  predicate AllOf(vs: Vals, et: nat) {
    match vs
    case Nil => true
    case Cons(v, tail) => TypeOf(v) == et && WellFormed(v) && AllOf(tail, et)
  }

  function EncodeText(b: Bytes): Bytes {
    Le(|b|, 8) + b
  }

  function Encode(v: Val): Bytes {
    match v
    case Num(t, n) => Le(n, FormatWidth(t))
    case Text(b) => EncodeText(b)
    case Array(et, vs) => Le(et, 4) + Le(Count(vs), 8) + EncodeAll(vs)
  }

  function EncodeAll(vs: Vals): Bytes {
    match vs
    case Nil => []
    case Cons(v, tail) => Encode(v) + EncodeAll(tail)
  }

  /** Within the reader's limits: text length, and nesting below `depth`. */
  predicate Fits(v: Val, depth: nat) {
    match v
    case Num(_, _) => true
    case Text(b) => |b| <= 67_108_864
    case Array(_, vs) => depth < 8 && AllFit(vs, depth + 1)
  }

  predicate AllFit(vs: Vals, depth: nat) {
    match vs
    case Nil => true
    case Cons(v, tail) => Fits(v, depth) && AllFit(tail, depth)
  }

  function Meaning(v: Val): Option<GVal>
    requires WellFormed(v)
  {
    match v
    case Num(t, n) => Some(FormatScalar(t, n))
    case Text(b) => Some(Str(b))
    case Array(_, _) => None
  }

  lemma ReadEncodedUint(n: nat, width: nat, tail: Bytes)
    requires n < Base(width)
    ensures ReadUint(Le(n, width) + tail, width) == Got(n, tail)
  {
    LeRoundTrip(n, width);
    assert (Le(n, width) + tail)[..width] == Le(n, width) && (Le(n, width) + tail)[width..] == tail;
  }

  lemma ReadEncodedText(b: Bytes, tail: Bytes)
    requires |b| < Base(8)
    ensures ReadText(EncodeText(b) + tail) == if |b| <= MAX_TEXT then Got(b, tail) else Fail
  {
    ReadEncodedUint(|b|, 8, b + tail);
    assert EncodeText(b) + tail == Le(|b|, 8) + (b + tail);
    assert (b + tail)[..|b|] == b && (b + tail)[|b|..] == tail;
  }

  /** Reading an encoded value gives back its meaning and stops at the first byte
      after it, exactly when it is within the limits; beyond them it fails. */
  lemma {:induction false} ValRoundTrip(v: Val, depth: nat, tail: Bytes)
    requires WellFormed(v)
    ensures ReadVal(Encode(v) + tail, TypeOf(v), depth)
         == if Fits(v, depth) then Got(Meaning(v), tail) else Fail
    decreases v, 0
  {
    hide Base, Le;
    match v
    case Num(t, n) =>
      ReadEncodedUint(n, FormatWidth(t), tail);
      TablesAgree(t, n);
    case Text(b) => ReadEncodedText(b, tail);
    case Array(et, vs) =>
      var body := EncodeAll(vs) + tail;
      assert Encode(v) + tail == Le(et, 4) + (Le(Count(vs), 8) + body);
      ReadEncodedUint(et, 4, Le(Count(vs), 8) + body);
      ReadEncodedUint(Count(vs), 8, body);
      ElemsRoundTrip(vs, et, depth + 1, tail);
  }

  lemma SmallFits(n: nat)
    ensures n <= 12 ==> n < Base(4)
  {
    assert Base(4) == 256 * Base(3) && Base(3) > 0;
  }

  lemma {:induction false} ElemsRoundTrip(vs: Vals, et: nat, depth: nat, tail: Bytes)
    requires AllOf(vs, et)
    ensures ReadElems(EncodeAll(vs) + tail, et, Count(vs), depth)
         == if AllFit(vs, depth) then Got((), tail) else Fail
    decreases vs, 1
  {
    hide Encode, ReadVal, Fits, WellFormed, Meaning, TypeOf;
    match vs
    case Nil => assert EncodeAll(vs) + tail == tail;
    case Cons(v, rest) =>
      assert EncodeAll(vs) + tail == Encode(v) + (EncodeAll(rest) + tail);
      ValRoundTrip(v, depth, EncodeAll(rest) + tail);
      ElemsRoundTrip(rest, et, depth, tail);
  }

  datatype Kv = Kv(key: Bytes, value: Val)
  datatype Tensor = Tensor(name: Bytes, dims: seq<nat>, kind: nat, offset: nat)

  /** A header: what comes before the tensor data. */
  datatype Header = Header(version: nat, kvs: seq<Kv>, tensors: seq<Tensor>)

  ghost predicate GoodKv(kv: Kv) {
    |kv.key| <= 67_108_864 && WellFormed(kv.value) && Fits(kv.value, 0)
  }

  ghost predicate GoodTensor(t: Tensor) {
    && |t.name| <= 67_108_864 && |t.dims| < Base(4) && t.kind < Base(4) && t.offset < Base(8)
    && forall i :: 0 <= i < |t.dims| ==> t.dims[i] < Base(8)
  }

  ghost predicate GoodHeader(h: Header) {
    && h.version < Base(4) && |h.kvs| < Base(8) && |h.tensors| < Base(8)
    && (forall i :: 0 <= i < |h.kvs| ==> GoodKv(h.kvs[i]))
    && (forall i :: 0 <= i < |h.tensors| ==> GoodTensor(h.tensors[i]))
  }

  function EncodeKvs(kvs: seq<Kv>): Bytes {
    if kvs == [] then []
    else EncodeText(kvs[0].key) + Le(TypeOf(kvs[0].value), 4) + Encode(kvs[0].value) + EncodeKvs(kvs[1..])
  }

  function EncodeDims(ds: seq<nat>): Bytes {
    if ds == [] then [] else Le(ds[0], 8) + EncodeDims(ds[1..])
  }

  function EncodeInfo(t: Tensor): Bytes {
    Le(|t.dims|, 4) + EncodeDims(t.dims) + Le(t.kind, 4) + Le(t.offset, 8)
  }

  function EncodeTensors(ts: seq<Tensor>): Bytes {
    if ts == [] then [] else EncodeText(ts[0].name) + EncodeInfo(ts[0]) + EncodeTensors(ts[1..])
  }

  function EncodeHeader(h: Header): Bytes {
    [0x47, 0x47, 0x55, 0x46] + Le(h.version, 4) + Le(|h.tensors|, 8) + Le(|h.kvs|, 8)
    + EncodeKvs(h.kvs) + EncodeTensors(h.tensors)
  }

  /** The last scalar written under `key`, if any. */
  function LastScalar(kvs: seq<Kv>, key: Bytes): Option<GVal>
    requires forall i :: 0 <= i < |kvs| ==> WellFormed(kvs[i].value)
  {
    if kvs == [] then None
    else
      var last := kvs[|kvs| - 1];
      if last.key == key && Meaning(last.value).Some? then Meaning(last.value)
      else LastScalar(kvs[..|kvs| - 1], key)
  }

  /** `m` holds exactly the last-written scalar of every key. */
  ghost predicate HoldsLast(m: Meta, kvs: seq<Kv>)
    requires forall i :: 0 <= i < |kvs| ==> WellFormed(kvs[i].value)
  {
    forall k :: (k in m <==> LastScalar(kvs, k).Some?) && (k in m ==> Some(m[k]) == LastScalar(kvs, k))
  }

  lemma TextFits(b: Bytes)
    requires |b| <= MAX_TEXT
    ensures |b| < Base(8)
  {
    assert Base(4) == 256 * (256 * (256 * (256 * Base(0))));
    assert Base(8) == 256 * (256 * (256 * (256 * Base(4))));
  }

  lemma {:induction false} ReadEncodedKv(kv: Kv, m: Meta, n: nat, tail: Bytes)
    requires GoodKv(kv) && n > 0
    ensures ReadKvs(EncodeText(kv.key) + Le(TypeOf(kv.value), 4) + Encode(kv.value) + tail, n, m)
         == ReadKvs(tail, n - 1, if Meaning(kv.value).Some? then m[kv.key := Meaning(kv.value).value] else m)
  {
    hide Base, Le, WellFormed, Fits, Encode, EncodeText, ReadVal, ReadText;
    var t := TypeOf(kv.value);
    var s := EncodeText(kv.key) + Le(t, 4) + Encode(kv.value) + tail;
    TextFits(kv.key);
    assert s == EncodeText(kv.key) + (Le(t, 4) + (Encode(kv.value) + tail));
    ReadEncodedText(kv.key, Le(t, 4) + (Encode(kv.value) + tail));
    TypeIsSmall(kv.value);
    ReadEncodedUint(t, 4, Encode(kv.value) + tail);
    ValRoundTrip(kv.value, 0, tail);
  }

  lemma TypeIsSmall(v: Val)
    requires WellFormed(v)
    ensures TypeOf(v) <= 12 && TypeOf(v) < Base(4)
  {
    SmallFits(TypeOf(v));
  }

  lemma KvHeld(done: seq<Kv>, kv: Kv, m: Meta)
    requires (forall i :: 0 <= i < |done| ==> WellFormed(done[i].value)) && WellFormed(kv.value) && HoldsLast(m, done)
    ensures forall i :: 0 <= i < |done + [kv]| ==> WellFormed((done + [kv])[i].value)
    ensures HoldsLast(if Meaning(kv.value).Some? then m[kv.key := Meaning(kv.value).value] else m, done + [kv])
  {
    hide WellFormed;
    assert (done + [kv])[..|done|] == done && (done + [kv])[|done|] == kv;
  }

  /** Reading the metadata block yields the last-written scalars and stops at the
      first byte after it. */
  lemma {:induction false} KvsRoundTrip(done: seq<Kv>, kvs: seq<Kv>, m: Meta, tail: Bytes)
    requires (forall i :: 0 <= i < |done| ==> WellFormed(done[i].value)) && HoldsLast(m, done)
    requires forall i :: 0 <= i < |kvs| ==> GoodKv(kvs[i])
    ensures var r := ReadKvs(EncodeKvs(kvs) + tail, |kvs|, m);
      && r.Got? && r.rest == tail
      && (forall i :: 0 <= i < |done + kvs| ==> WellFormed((done + kvs)[i].value))
      && HoldsLast(r.value, done + kvs)
    decreases |kvs|
  {
    hide WellFormed, Fits, Encode, ReadVal, ReadText, Le, TypeOf, EncodeText;
    if kvs == [] {
      assert done + kvs == done && EncodeKvs(kvs) + tail == tail;
    } else {
      var kv, rest := kvs[0], EncodeKvs(kvs[1..]) + tail;
      assert EncodeKvs(kvs) + tail
          == EncodeText(kv.key) + Le(TypeOf(kv.value), 4) + Encode(kv.value) + rest;
      ReadEncodedKv(kv, m, |kvs|, rest);
      var v := Meaning(kv.value);
      var m' := if v.Some? then m[kv.key := v.value] else m;
      KvHeld(done, kv, m);
      hide HoldsLast, Meaning;
      KvsRoundTrip(done + [kv], kvs[1..], m', tail);
      assert (done + [kv]) + kvs[1..] == done + kvs;
    }
  }

  lemma {:induction false} ReadEncodedHeader(h: Header, tail: Bytes)
    requires GoodHeader(h)
    ensures ReadHeader(EncodeHeader(h) + tail)
         == Got((|h.tensors|, |h.kvs|), EncodeKvs(h.kvs) + (EncodeTensors(h.tensors) + tail))
  {
    hide Base, Le, EncodeKvs, EncodeTensors;
    var body := EncodeKvs(h.kvs) + (EncodeTensors(h.tensors) + tail);
    var s3 := Le(|h.kvs|, 8) + body;
    var s2 := Le(|h.tensors|, 8) + s3;
    var s1 := Le(h.version, 4) + s2;
    assert MAGIC == [0x47, 0x47, 0x55, 0x46] && EncodeHeader(h) + tail == MAGIC + s1;
    assert (MAGIC + s1)[..4] == MAGIC && (MAGIC + s1)[4..] == s1;
    ReadEncodedUint(h.version, 4, s2);
    ReadEncodedUint(|h.tensors|, 8, s3);
    ReadEncodedUint(|h.kvs|, 8, body);
  }

  /** For every well-formed header, whatever bytes follow: the metadata read is
      exactly the last-written scalar per key, ending where the tensors begin. */
  lemma MetaRoundTrip(h: Header, tail: Bytes)
    requires GoodHeader(h)
    ensures var r := ReadMeta(EncodeHeader(h) + tail);
      && r.Got? && r.rest == EncodeTensors(h.tensors) + tail
      && HoldsLast(r.value, h.kvs)
  {
    ReadEncodedHeader(h, tail);
    assert [] + h.kvs == h.kvs;
    KvsRoundTrip([], h.kvs, map[], EncodeTensors(h.tensors) + tail);
  }

  lemma {:induction false} DimsRoundTrip(ds: seq<nat>, tail: Bytes)
    requires forall i :: 0 <= i < |ds| ==> ds[i] < Base(8)
    ensures SkipDims(EncodeDims(ds) + tail, |ds|) == Got((), tail)
  {
    hide Base, Le;
    if ds == [] {
      assert EncodeDims(ds) + tail == tail;
    } else {
      assert EncodeDims(ds) + tail == Le(ds[0], 8) + (EncodeDims(ds[1..]) + tail);
      ReadEncodedUint(ds[0], 8, EncodeDims(ds[1..]) + tail);
      DimsRoundTrip(ds[1..], tail);
    }
  }

  lemma InfoRoundTrip(t: Tensor, tail: Bytes)
    requires GoodTensor(t)
    ensures SkipInfo(EncodeInfo(t) + tail) == Got((), tail)
  {
    hide Base, Le;
    var s2 := Le(t.offset, 8) + tail;
    var s1 := Le(t.kind, 4) + s2;
    assert EncodeInfo(t) + tail == Le(|t.dims|, 4) + (EncodeDims(t.dims) + s1);
    ReadEncodedUint(|t.dims|, 4, EncodeDims(t.dims) + s1);
    DimsRoundTrip(t.dims, s1);
    ReadEncodedUint(t.kind, 4, s2);
    ReadEncodedUint(t.offset, 8, tail);
  }

  lemma TensorStep(t: Tensor, rest: Bytes, n: nat)
    requires GoodTensor(t) && n > 0
    ensures ScanTensors(EncodeText(t.name) + (EncodeInfo(t) + rest), n)
         == (IsMtpName(t.name) || ScanTensors(rest, n - 1))
  {
    TextFits(t.name);
    ReadEncodedText(t.name, EncodeInfo(t) + rest);
    InfoRoundTrip(t, rest);
    hide IsMtpName, EncodeInfo, SkipInfo, EncodeText, ReadText, GoodTensor;
  }

  lemma {:induction false} TensorsRoundTrip(ts: seq<Tensor>, tail: Bytes)
    requires forall i :: 0 <= i < |ts| ==> GoodTensor(ts[i])
    ensures ScanTensors(EncodeTensors(ts) + tail, |ts|)
       <==> exists i :: 0 <= i < |ts| && IsMtpName(ts[i].name)
  {
    hide *;
    if ts == [] {
      NoTensors(tail);
    } else {
      var t, more := ts[0], ts[1..];
      assert ts == [t] + more;
      OneTensorMore(t, more, tail);
      TensorStep(t, EncodeTensors(more) + tail, |ts|);
      TensorsRoundTrip(more, tail);
      AnyOfCons(t, more);
    }
  }

  lemma NoTensors(tail: Bytes)
    ensures !ScanTensors(EncodeTensors([]) + tail, 0)
  {}

  lemma AnyOfCons(t: Tensor, more: seq<Tensor>)
    ensures (exists i :: 0 <= i < |[t] + more| && IsMtpName(([t] + more)[i].name))
       <==> IsMtpName(t.name) || exists i :: 0 <= i < |more| && IsMtpName(more[i].name)
  {
    hide IsMtpName;
    var ts := [t] + more;
    assert forall i :: 0 <= i < |more| ==> more[i] == ts[i + 1];
    assert ts[0] == t;
  }

  lemma OneTensorMore(t: Tensor, more: seq<Tensor>, rest: Bytes)
    ensures EncodeTensors([t] + more) + rest == EncodeText(t.name) + (EncodeInfo(t) + (EncodeTensors(more) + rest))
  {
    hide EncodeText, EncodeInfo;
    assert ([t] + more)[1..] == more;
  }

  /** The letter at `i`, in either case; `lower` is a small letter. */
  predicate LetterAt(s: Bytes, i: nat, lower: Byte)
    requires i < |s|
  {
    s[i] == lower || (s[i] as int) + 32 == lower
  }

  ghost predicate NextnAt(s: Bytes, i: nat) {
    && i + 5 <= |s| && LetterAt(s, i, 0x6E) && LetterAt(s, i + 1, 0x65) && LetterAt(s, i + 2, 0x78)
    && LetterAt(s, i + 3, 0x74) && LetterAt(s, i + 4, 0x6E)
  }

  ghost predicate MtpAt(s: Bytes, i: nat) {
    i + 3 <= |s| && LetterAt(s, i, 0x6D) && LetterAt(s, i + 1, 0x74) && LetterAt(s, i + 2, 0x70)
  }

  /** The letters of `nextn` or of `mtp` occur in the name, in either case. */
  ghost predicate NamesMtp(name: Bytes) {
    (exists i: nat :: NextnAt(name, i)) || (exists i: nat :: MtpAt(name, i))
  }

  lemma MtpNames(name: Bytes)
    ensures IsMtpName(name) <==> NamesMtp(name)
  {
    forall i: nat ensures MatchesAt(name, NEXTN, i) == NextnAt(name, i) { NextnMatches(name, i); }
    forall i: nat ensures MatchesAt(name, MTP, i) == MtpAt(name, i) { MtpMatches(name, i); }
    hide MatchesAt, NextnAt, MtpAt;
    forall i: nat ensures MatchesAt(name, NEXTN, i) || MatchesAt(name, MTP, i) ==> i <= |name| { InName(name, i); }
  }

  lemma InName(name: Bytes, i: nat)
    ensures MatchesAt(name, NEXTN, i) || MatchesAt(name, MTP, i) ==> i <= |name|
  {}

  lemma NextnMatches(s: Bytes, i: nat)
    ensures MatchesAt(s, NEXTN, i) == NextnAt(s, i)
  {
    if i + 5 <= |s| {
      assert NEXTN[0] == 0x6E && NEXTN[1] == 0x65 && NEXTN[2] == 0x78 && NEXTN[3] == 0x74 && NEXTN[4] == 0x6E;
      assert forall j :: 0 <= j < 5 ==> (LowerByte(s[i + j]) == NEXTN[j] <==> LetterAt(s, i + j, NEXTN[j]));
    }
  }

  lemma MtpMatches(s: Bytes, i: nat)
    ensures MatchesAt(s, MTP, i) == MtpAt(s, i)
  {
    if i + 3 <= |s| {
      assert MTP[0] == 0x6D && MTP[1] == 0x74 && MTP[2] == 0x70;
      assert forall j :: 0 <= j < 3 ==> (LowerByte(s[i + j]) == MTP[j] <==> LetterAt(s, i + j, MTP[j]));
    }
  }

  /** The tensor scan lands exactly on the tensor names: it answers true if and
      only if some name mentions an MTP layer. */
  lemma MtpScanExact(h: Header, tail: Bytes)
    requires GoodHeader(h)
    ensures HasMtpTensors(EncodeHeader(h) + tail)
       <==> exists i :: 0 <= i < |h.tensors| && NamesMtp(h.tensors[i].name)
  {
    forall i | 0 <= i < |h.tensors| ensures IsMtpName(h.tensors[i].name) == NamesMtp(h.tensors[i].name) {
      MtpNames(h.tensors[i].name);
    }
    hide IsMtpName, NamesMtp;
    ReadEncodedHeader(h, tail);
    assert [] + h.kvs == h.kvs;
    KvsRoundTrip([], h.kvs, map[], EncodeTensors(h.tensors) + tail);
    hide ScanTensors, ReadKvs, ReadHeader, EncodeHeader, EncodeTensors, EncodeKvs, HoldsLast, GoodTensor, GoodKv;
    TensorsRoundTrip(h.tensors, tail);
  }

  // --- Reading any bytes ----------------------------------------------------

  lemma {:induction false} LeDecodes(b: Bytes)
    ensures LeValue(b) < Base(|b|) && Le(LeValue(b), |b|) == b
  {
    if b != [] {
      var low, high := b[0], LeValue(b[1..]);
      LeDecodes(b[1..]);
      Digits(low, high);
      LeStep(b);
      assert Base(|b|) == 256 * Base(|b| - 1);
      assert Le(low + 256 * high, |b|) == [low] + Le(high, |b| - 1);
      hide *;
      assert b == [b[0]] + b[1..];
    }
  }

  lemma Digits(low: Byte, high: nat)
    ensures (low + 256 * high) % 256 == low && (low + 256 * high) / 256 == high
  {}

  lemma UintDecodes(s: Bytes, width: nat)
    requires ReadUint(s, width).Got?
    ensures var r := ReadUint(s, width); r.value < Base(width) && s == Le(r.value, width) + r.rest
  {
    LeDecodes(s[..width]);
    hide Le, LeValue, Base;
  }

  lemma TextDecodes(s: Bytes)
    requires ReadText(s).Got?
    ensures var r := ReadText(s); |r.value| <= 67_108_864 && s == EncodeText(r.value) + r.rest
  {
    UintDecodes(s, 8);
    hide Le, Base, ReadUint;
  }

  /** What is read as a value is an encoded one within the limits, and what is left
      are the bytes after it. */
  lemma {:induction false} ValDecodes(s: Bytes, t: nat, depth: nat) returns (v: Val)
    requires ReadVal(s, t, depth).Got?
    ensures WellFormed(v) && Fits(v, depth) && TypeOf(v) == t
    ensures var r := ReadVal(s, t, depth); r.value == Meaning(v) && s == Encode(v) + r.rest
    decreases |s|, 1
  {
    hide Le, Base, ReadUint, ReadText;
    if IsScalar(t) {
      UintDecodes(s, Width(t));
      TablesAgree(t, ReadUint(s, Width(t)).value);
      v := Num(t, ReadUint(s, Width(t)).value);
    } else if t == 8 {
      TextDecodes(s);
      TextFits(ReadText(s).value);
      v := Text(ReadText(s).value);
    } else {
      v := ArrayDecodes(s, depth);
    }
  }

  lemma {:induction false} ArrayDecodes(s: Bytes, depth: nat) returns (v: Val)
    requires ReadVal(s, 9, depth).Got?
    ensures WellFormed(v) && Fits(v, depth) && TypeOf(v) == 9
    ensures var r := ReadVal(s, 9, depth); r.value == Meaning(v) && s == Encode(v) + r.rest
    decreases |s|, 0
  {
    ArrayParts(s, depth);
    var et := ReadUint(s, 4);
    var count := ReadUint(et.rest, 8);
    UintDecodes(s, 4);
    UintDecodes(et.rest, 8);
    var vs := ElemsDecode(count.rest, et.value, count.value, depth + 1);
    v := Array(et.value, vs);
    hide *;
    ArrayMade(et.value, vs, depth, s, et.rest, count.rest, ReadVal(s, 9, depth).rest);
  }

  lemma ArrayMade(et: nat, vs: Vals, depth: nat, s: Bytes, s1: Bytes, s2: Bytes, rest: Bytes)
    requires et < Base(4) && Count(vs) < Base(8) && AllOf(vs, et) && depth < 8 && AllFit(vs, depth + 1)
    requires s == Le(et, 4) + s1 && s1 == Le(Count(vs), 8) + s2 && s2 == EncodeAll(vs) + rest
    ensures var v := Array(et, vs);
      WellFormed(v) && Fits(v, depth) && TypeOf(v) == 9 && Meaning(v) == None && s == Encode(v) + rest
  {
    hide Le, Base, AllOf, AllFit, EncodeAll, Count;
  }

  lemma ArrayParts(s: Bytes, depth: nat)
    requires ReadVal(s, 9, depth).Got?
    ensures depth < 8 && ReadUint(s, 4).Got? && ReadUint(ReadUint(s, 4).rest, 8).Got?
    ensures var et := ReadUint(s, 4);
      var count := ReadUint(et.rest, 8);
      var r := ReadElems(count.rest, et.value, count.value, depth + 1);
      r.Got? && ReadVal(s, 9, depth) == Got(None, r.rest)
  {
    hide ReadUint, ReadElems;
  }

  lemma {:induction false} ElemsDecode(s: Bytes, et: nat, count: nat, depth: nat) returns (vs: Vals)
    requires ReadElems(s, et, count, depth).Got?
    ensures Count(vs) == count && AllOf(vs, et) && AllFit(vs, depth)
    ensures s == EncodeAll(vs) + ReadElems(s, et, count, depth).rest
    decreases |s|, 2
  {
    hide ReadVal, WellFormed, Fits, Encode, Meaning, TypeOf;
    if count == 0 {
      vs := Nil;
    } else {
      var v := ValDecodes(s, et, depth);
      var rest := ReadVal(s, et, depth).rest;
      var tail := ElemsDecode(rest, et, count - 1, depth);
      vs := Cons(v, tail);
    }
  }

  lemma KvDecodes(s: Bytes, n: nat, m: Meta) returns (kv: Kv, m1: Meta, rest: Bytes)
    requires n > 0 && ReadKvs(s, n, m).Got?
    ensures GoodKv(kv) && s == EncodeText(kv.key) + (Le(TypeOf(kv.value), 4) + (Encode(kv.value) + rest))
    ensures |rest| < |s| && ReadKvs(s, n, m) == ReadKvs(rest, n - 1, m1)
  {
    hide Le, Base, EncodeText, Encode, TypeOf, Meaning, WellFormed, Fits;
    var key := ReadText(s);
    var t := ReadUint(key.rest, 4);
    var val := ReadVal(t.rest, t.value, 0);
    TextDecodes(s);
    UintDecodes(key.rest, 4);
    var v := ValDecodes(t.rest, t.value, 0);
    kv, rest := Kv(key.value, v), val.rest;
    m1 := if val.value.Some? then m[key.value := val.value.value] else m;
    hide ReadText, ReadUint, ReadVal;
  }

  lemma {:induction false} KvsDecode(s: Bytes, n: nat, m: Meta) returns (kvs: seq<Kv>)
    requires ReadKvs(s, n, m).Got?
    ensures |kvs| == n && (forall i :: 0 <= i < |kvs| ==> GoodKv(kvs[i]))
    ensures s == EncodeKvs(kvs) + ReadKvs(s, n, m).rest
    decreases |s|
  {
    hide *;
    if n == 0 {
      kvs := [];
      NoKvs(s, m);
    } else {
      var kv, m1, rest := KvDecodes(s, n, m);
      var tail := KvsDecode(rest, n - 1, m1);
      kvs := [kv] + tail;
      AllGood(kv, tail);
      OneKvMore(kv, tail, s, rest, ReadKvs(s, n, m).rest);
    }
  }

  lemma AllGood(kv: Kv, tail: seq<Kv>)
    requires GoodKv(kv) && forall i :: 0 <= i < |tail| ==> GoodKv(tail[i])
    ensures forall i :: 0 <= i < |[kv] + tail| ==> GoodKv(([kv] + tail)[i])
  {
    hide GoodKv;
  }

  lemma NoKvs(s: Bytes, m: Meta)
    ensures ReadKvs(s, 0, m) == Got(m, s) && EncodeKvs([]) + s == s
  {}

  lemma OneKvMore(kv: Kv, tail: seq<Kv>, s: Bytes, s1: Bytes, rest: Bytes)
    requires s == EncodeText(kv.key) + (Le(TypeOf(kv.value), 4) + (Encode(kv.value) + s1))
    requires s1 == EncodeKvs(tail) + rest
    ensures s == EncodeKvs([kv] + tail) + rest
  {
    hide Le, EncodeText, Encode, TypeOf;
    var kvs := [kv] + tail;
    assert kvs[0] == kv && kvs[1..] == tail;
    hide EncodeKvs;
  }

  /** The bytes are a header with these entries, and then `rest`. */
  ghost predicate MetaAt(s: Bytes, version: nat, tensors: nat, kvs: seq<Kv>, rest: Bytes) {
    && version < Base(4) && tensors < Base(8) && |kvs| < Base(8) && (forall i :: 0 <= i < |kvs| ==> GoodKv(kvs[i]))
    && s == [0x47, 0x47, 0x55, 0x46] + (Le(version, 4) + (Le(tensors, 8) + (Le(|kvs|, 8) + (EncodeKvs(kvs) + rest))))
  }

  lemma HeaderDecodes(s: Bytes) returns (version: nat)
    requires ReadHeader(s).Got?
    ensures var (counts, rest) := (ReadHeader(s).value, ReadHeader(s).rest);
      && version < Base(4) && counts.0 < Base(8) && counts.1 < Base(8)
      && s == [0x47, 0x47, 0x55, 0x46] + (Le(version, 4) + (Le(counts.0, 8) + (Le(counts.1, 8) + rest)))
  {
    hide Le, Base, LeValue;
    var s1 := ReadN(s, 4).rest;
    UintDecodes(s1, 4);
    version := ReadUint(s1, 4).value;
    var s2 := ReadUint(s1, 4).rest;
    UintDecodes(s2, 8);
    UintDecodes(ReadUint(s2, 8).rest, 8);
    hide ReadUint, ReadN;
    assert s[..4] == MAGIC && MAGIC == [0x47, 0x47, 0x55, 0x46] by { ReadsFour(s); }
  }

  lemma ReadsFour(s: Bytes)
    requires ReadHeader(s).Got?
    ensures s[..4] == MAGIC && ReadN(s, 4) == Got(MAGIC, s[4..])
  {}

  lemma HeaderEncodes(version: nat, tensors: nat, n: nat, body: Bytes)
    requires version < Base(4) && tensors < Base(8) && n < Base(8)
    ensures ReadHeader([0x47, 0x47, 0x55, 0x46] + (Le(version, 4) + (Le(tensors, 8) + (Le(n, 8) + body))))
         == Got((tensors, n), body)
  {
    hide Base, Le;
    var s3 := Le(n, 8) + body;
    var s2 := Le(tensors, 8) + s3;
    var s1 := Le(version, 4) + s2;
    assert (MAGIC + s1)[..4] == MAGIC && (MAGIC + s1)[4..] == s1;
    ReadEncodedUint(version, 4, s2);
    ReadEncodedUint(tensors, 8, s3);
    ReadEncodedUint(n, 8, body);
  }

  lemma MetaDecodes(s: Bytes) returns (version: nat, tensors: nat, kvs: seq<Kv>)
    requires ReadMeta(s).Got?
    ensures MetaAt(s, version, tensors, kvs, ReadMeta(s).rest) && ReadHeader(s).Got?
    ensures ReadHeader(s).value == (tensors, |kvs|)
  {
    version := HeaderDecodes(s);
    tensors := ReadHeader(s).value.0;
    hide ReadHeader, ReadKvs, Base, Le, EncodeKvs, GoodKv;
    kvs := KvsDecode(ReadHeader(s).rest, ReadHeader(s).value.1, map[]);
  }

  lemma MetaEncodes(s: Bytes, version: nat, tensors: nat, kvs: seq<Kv>, rest: Bytes)
    requires MetaAt(s, version, tensors, kvs, rest)
    ensures ReadMeta(s).Got? && ReadMeta(s).rest == rest && HoldsLast(ReadMeta(s).value, kvs)
    ensures ReadHeader(s).Got? && ReadHeader(s).value == (tensors, |kvs|)
  {
    hide ReadHeader, ReadKvs, Base, Le, EncodeKvs, GoodKv;
    HeaderEncodes(version, tensors, |kvs|, EncodeKvs(kvs) + rest);
    assert [] + kvs == kvs;
    KvsRoundTrip([], kvs, map[], rest);
  }

  lemma SameHeld(m: Meta, n: Meta, kvs: seq<Kv>)
    requires (forall i :: 0 <= i < |kvs| ==> WellFormed(kvs[i].value)) && HoldsLast(m, kvs) && HoldsLast(n, kvs)
    ensures m == n
  {
    hide LastScalar, WellFormed;
  }

  /** On any bytes at all: the metadata read succeeds with `m` and stops at `rest` if
      and only if the bytes are a header whose entries leave `m`, and then `rest`. */
  lemma MetaExact(s: Bytes, m: Meta, rest: Bytes)
    ensures ReadMeta(s) == Got(m, rest)
      <==> exists version, tensors, kvs :: MetaAt(s, version, tensors, kvs, rest) && HoldsLast(m, kvs)
  {
    if ReadMeta(s) == Got(m, rest) {
      var version, tensors, kvs := MetaDecodes(s);
      MetaEncodes(s, version, tensors, kvs, rest);
    }
    if version, tensors, kvs :| MetaAt(s, version, tensors, kvs, rest) && HoldsLast(m, kvs) {
      MetaEncodes(s, version, tensors, kvs, rest);
      SameHeld(m, ReadMeta(s).value, kvs);
    }
  }

  /** The bytes are fewer tensor infos than declared, and then a name with an MTP
      layer in it. */
  ghost predicate NamedAt(s: Bytes, tensors: nat, before: seq<Tensor>, name: Bytes, tail: Bytes) {
    && |before| < tensors && (forall i :: 0 <= i < |before| ==> GoodTensor(before[i]))
    && |name| <= 67_108_864 && NamesMtp(name) && s == EncodeTensors(before) + (EncodeText(name) + tail)
  }

  lemma {:induction false} DimsDecode(s: Bytes, n: nat) returns (ds: seq<nat>)
    requires SkipDims(s, n).Got?
    ensures |ds| == n && (forall i :: 0 <= i < n ==> ds[i] < Base(8))
    ensures s == EncodeDims(ds) + SkipDims(s, n).rest
    decreases n
  {
    hide Le, Base, ReadUint;
    if n == 0 {
      ds := [];
    } else {
      var d := ReadUint(s, 8);
      var end := SkipDims(s, n).rest;
      assert d.Got? && SkipDims(d.rest, n - 1) == SkipDims(s, n);
      hide *;
      UintDecodes(s, 8);
      var more := DimsDecode(d.rest, n - 1);
      ds := [d.value] + more;
      OneDimMore(d.value, more, s, end);
    }
  }

  lemma OneDimMore(d: nat, more: seq<nat>, s: Bytes, rest: Bytes)
    requires s == Le(d, 8) + (EncodeDims(more) + rest)
    ensures s == EncodeDims([d] + more) + rest
  {
    hide Le;
    assert ([d] + more)[1..] == more;
  }

  lemma InfoDecodes(s: Bytes, name: Bytes) returns (t: Tensor)
    requires SkipInfo(s).Got? && |name| <= 67_108_864
    ensures GoodTensor(t) && t.name == name && s == EncodeInfo(t) + SkipInfo(s).rest
  {
    hide Le, Base, EncodeDims, SkipDims;
    UintDecodes(s, 4);
    var nd := ReadUint(s, 4);
    var ds := DimsDecode(nd.rest, nd.value);
    var s2 := SkipDims(nd.rest, nd.value).rest;
    UintDecodes(s2, 4);
    var kind := ReadUint(s2, 4);
    UintDecodes(kind.rest, 8);
    t := Tensor(name, ds, kind.value, ReadUint(kind.rest, 8).value);
    hide ReadUint;
  }

  lemma {:induction false} ScanDecodes(s: Bytes, n: nat) returns (before: seq<Tensor>, name: Bytes, tail: Bytes)
    requires ScanTensors(s, n)
    ensures NamedAt(s, n, before, name, tail)
    decreases |s|
  {
    hide SkipInfo, ReadText, EncodeText, EncodeInfo, GoodTensor, IsMtpName, NamesMtp;
    TextDecodes(s);
    var first := ReadText(s);
    MtpNames(first.value);
    if IsMtpName(first.value) {
      before, name, tail := [], first.value, first.rest;
      assert EncodeTensors([]) == [];
    } else {
      var t := InfoDecodes(first.rest, first.value);
      var more;
      more, name, tail := ScanDecodes(SkipInfo(first.rest).rest, n - 1);
      before := [t] + more;
      OneTensorMore(t, more, EncodeText(name) + tail);
    }
  }

  lemma {:induction false} ScanFinds(s: Bytes, n: nat, before: seq<Tensor>, name: Bytes, tail: Bytes)
    requires NamedAt(s, n, before, name, tail)
    ensures ScanTensors(s, n)
    decreases |before|
  {
    hide SkipInfo, ReadText, EncodeText, EncodeInfo, GoodTensor, IsMtpName, NamesMtp;
    MtpNames(name);
    TextFits(name);
    if before == [] {
      assert EncodeTensors([]) == [] && s == EncodeText(name) + tail;
      ReadEncodedText(name, tail);
    } else {
      var t, more := before[0], before[1..];
      var rest := EncodeTensors(more) + (EncodeText(name) + tail);
      assert before == [t] + more;
      OneTensorMore(t, more, EncodeText(name) + tail);
      TensorStep(t, rest, n);
      assert NamedAt(rest, n - 1, more, name, tail);
      ScanFinds(rest, n - 1, more, name, tail);
    }
  }

  /** On any bytes at all: the scan answers true if and only if the bytes are a header,
      whole tensor infos, and within the declared count a name with an MTP layer. */
  lemma ScanExact(s: Bytes)
    ensures HasMtpTensors(s)
      <==> exists version, tensors, kvs, rest, before, name, tail ::
             MetaAt(s, version, tensors, kvs, rest) && NamedAt(rest, tensors, before, name, tail)
  {
    hide MetaAt, NamedAt, ScanTensors, ReadHeader, ReadKvs;
    if HasMtpTensors(s) {
      var version, tensors, kvs := MetaDecodes(s);
      var before, name, tail := ScanDecodes(ReadMeta(s).rest, tensors);
    }
    if version, tensors, kvs, rest, before, name, tail :|
      MetaAt(s, version, tensors, kvs, rest) && NamedAt(rest, tensors, before, name, tail)
    {
      MetaEncodes(s, version, tensors, kvs, rest);
      ScanFinds(rest, tensors, before, name, tail);
    }
  }

  // --- Work on arbitrary bytes ----------------------------------------------

  /** Loop iterations started while reading one value, on any bytes. */
  function ValCost(s: Bytes, t: nat, depth: nat): nat
    decreases |s|, 0
  {
    if t != 9 || depth >= MAX_DEPTH || |s| < 12 then 0
    else ElemsCost(s[12..], LeValue(s[..4]), LeValue(s[4..12]), depth + 1)
  }

  function ElemsCost(s: Bytes, et: nat, count: nat, depth: nat): nat
    decreases |s|, 1
  {
    if count == 0 then 0
    else
      1 + ValCost(s, et, depth)
      + match ReadVal(s, et, depth)
        case Fail => 0
        case Got(_, rest) => ElemsCost(rest, et, count - 1, depth)
  }

  lemma {:induction false} ValCostBound(s: Bytes, t: nat, depth: nat)
    requires depth <= MAX_DEPTH
    ensures match ReadVal(s, t, depth)
      case Fail => ValCost(s, t, depth) <= |s| + MAX_DEPTH - depth
      case Got(_, rest) => ValCost(s, t, depth) < |s| - |rest|
    decreases |s|, 0
  {
    if t == 9 && depth < MAX_DEPTH && |s| >= 12 {
      assert s[4..][..8] == s[4..12] && s[4..][8..] == s[12..];
      ElemsCostBound(s[12..], LeValue(s[..4]), LeValue(s[4..12]), depth + 1);
    }
  }

  lemma {:induction false} ElemsCostBound(s: Bytes, et: nat, count: nat, depth: nat)
    requires depth <= MAX_DEPTH
    ensures match ReadElems(s, et, count, depth)
      case Fail => ElemsCost(s, et, count, depth) <= |s| + MAX_DEPTH - depth + 1
      case Got(_, rest) => ElemsCost(s, et, count, depth) <= |s| - |rest|
    decreases |s|, 1
  {
    if count > 0 {
      ValCostBound(s, et, depth);
      match ReadVal(s, et, depth)
      case Fail =>
      case Got(_, rest) => ElemsCostBound(rest, et, count - 1, depth);
    }
  }

  /** Iterations of the metadata loop and of every array loop inside it. */
  function KvsCost(s: Bytes, n: nat): nat
    decreases |s|
  {
    if n == 0 then 0
    else
      match ReadText(s)
      case Fail => 1
      case Got(k, s1) =>
        match ReadUint(s1, 4)
        case Fail => 1
        case Got(t, s2) =>
          1 + ValCost(s2, t, 0)
          + match ReadVal(s2, t, 0)
            case Fail => 0
            case Got(_, rest) => KvsCost(rest, n - 1)
  }

  lemma {:induction false} KvsCostBound(s: Bytes, n: nat, m: Meta)
    ensures match ReadKvs(s, n, m)
      case Fail => KvsCost(s, n) <= |s| + MAX_DEPTH + 1
      case Got(_, rest) => KvsCost(s, n) <= |s| - |rest|
    decreases |s|
  {
    hide ValCost, ReadVal, ReadText, ReadUint;
    if n > 0 {
      match ReadText(s)
      case Fail =>
      case Got(k, s1) =>
        match ReadUint(s1, 4)
        case Fail =>
        case Got(t, s2) =>
          ValCostBound(s2, t, 0);
          match ReadVal(s2, t, 0)
          case Fail =>
          case Got(v, rest) => KvsCostBound(rest, n - 1, if v.Some? then m[k := v.value] else m);
    }
  }

  function DimsCost(s: Bytes, n: nat): nat
    decreases |s|
  {
    if n == 0 then 0 else if |s| < 8 then 1 else 1 + DimsCost(s[8..], n - 1)
  }

  lemma {:induction false} DimsCostBound(s: Bytes, n: nat)
    ensures match SkipDims(s, n)
      case Fail => DimsCost(s, n) <= |s| + 1
      case Got(_, rest) => DimsCost(s, n) <= |s| - |rest|
    decreases |s|
  {
    if n > 0 && |s| >= 8 { DimsCostBound(s[8..], n - 1); }
  }

  /** Iterations of the dimension loop of one tensor info. */
  function InfoCost(s: Bytes): nat {
    match ReadUint(s, 4)
    case Fail => 0
    case Got(nd, rest) => DimsCost(rest, nd)
  }

  /** Iterations of the tensor loop and of every dimension loop inside it. */
  function ScanCost(s: Bytes, n: nat): nat
    decreases |s|
  {
    if n == 0 then 0
    else
      match ReadText(s)
      case Fail => 1
      case Got(name, s1) =>
        if IsMtpName(name) then 1
        else
          1 + InfoCost(s1)
          + match SkipInfo(s1)
            case Fail => 0
            case Got(_, rest) => ScanCost(rest, n - 1)
  }

  lemma InfoCostBound(s: Bytes)
    ensures match SkipInfo(s)
      case Fail => InfoCost(s) <= |s| + 1
      case Got(_, rest) => InfoCost(s) <= |s| - |rest|
  {
    hide DimsCost, SkipDims, LeValue;
    match ReadUint(s, 4)
    case Fail =>
    case Got(nd, rest) => DimsCostBound(rest, nd);
  }

  lemma {:induction false} ScanCostBound(s: Bytes, n: nat)
    ensures ScanCost(s, n) <= |s| + 2
    decreases |s|
  {
    hide IsMtpName, InfoCost, SkipInfo, ReadText;
    if n > 0 {
      match ReadText(s)
      case Fail =>
      case Got(name, s1) =>
        if !IsMtpName(name) {
          InfoCostBound(s1);
          match SkipInfo(s1)
          case Fail =>
          case Got(_, rest) => ScanCostBound(rest, n - 1);
        }
    }
  }

  function MtpCost(s: Bytes): nat {
    match ReadHeader(s)
    case Fail => 0
    case Got(counts, rest) =>
      KvsCost(rest, counts.1)
      + match ReadKvs(rest, counts.1, map[])
        case Fail => 0
        case Got(_, infos) => ScanCost(infos, counts.0)
  }

  /** On any bytes, with any declared counts, the whole scan starts no more loop
      iterations than the file has bytes. */
  lemma WorkBounded(s: Bytes)
    ensures MtpCost(s) <= |s|
  {
    match ReadHeader(s)
    case Fail =>
    case Got(counts, rest) =>
      KvsCostBound(rest, counts.1, map[]);
      match ReadKvs(rest, counts.1, map[])
      case Fail =>
      case Got(_, infos) => ScanCostBound(infos, counts.0);
  }

  // --- The reader itself ----------------------------------------------------

  /** A reader over the bytes not yet consumed; every read advances it. `turns`
      counts the loop iterations started so far, in every loop below. */
  class Reader {
    var rest: Bytes
    ghost var turns: nat

    constructor (file: Bytes)
      ensures rest == file && turns == 0
    {
      rest, turns := file, 0;
    }

    method TakeN(n: nat) returns (r: Read<Bytes>)
      modifies this`rest
      ensures r == ReadN(old(rest), n) && rest == if r.Got? then r.rest else old(rest)
    {
      r := ReadN(rest, n);
      if r.Got? { rest := r.rest; }
    }

    method TakeUint(width: nat) returns (r: Read<nat>)
      modifies this`rest
      ensures r == ReadUint(old(rest), width) && (r.Got? ==> rest == r.rest)
      ensures |rest| <= |old(rest)|
    {
      var b := TakeN(width);
      r := if b.Got? then Got(LeValue(b.value), b.rest) else Fail;
    }

    method TakeText() returns (r: Read<Bytes>)
      modifies this`rest
      ensures r == ReadText(old(rest)) && (r.Got? ==> rest == r.rest)
      ensures |rest| <= |old(rest)|
    {
      var n := TakeUint(8);
      if n.Fail? || n.value > MAX_TEXT { return Fail; }
      r := TakeN(n.value);
    }

    method TakeVal(t: nat, depth: nat) returns (r: Read<Option<GVal>>)
      modifies this
      ensures r == ReadVal(old(rest), t, depth) && (r.Got? ==> rest == r.rest)
      ensures |rest| <= |old(rest)|
      ensures turns == old(turns) + ValCost(old(rest), t, depth)
      decreases |rest|, 1
    {
      if IsScalar(t) {
        var n := TakeUint(Width(t));
        return if n.Got? then Got(Some(Scalar(t, n.value)), n.rest) else Fail;
      }
      if t == 8 {
        var b := TakeText();
        return if b.Got? then Got(Some(Str(b.value)), b.rest) else Fail;
      }
      if t != 9 || depth >= MAX_DEPTH { return Fail; }
      r := TakeArray(depth);
    }

    method TakeArray(depth: nat) returns (r: Read<Option<GVal>>)
      requires depth < MAX_DEPTH
      modifies this
      ensures r == ReadVal(old(rest), 9, depth) && (r.Got? ==> rest == r.rest)
      ensures |rest| <= |old(rest)|
      ensures turns == old(turns) + ValCost(old(rest), 9, depth)
      decreases |rest|, 0
    {
      hide LeValue, Scalar, Width, ReadText, ElemsCost, ReadElems, ReadUint;
      ghost var start := rest;
      ArrayCost(start, depth);
      var et := TakeUint(4);
      if et.Fail? { return Fail; }
      var count := TakeUint(8);
      if count.Fail? { return Fail; }
      var ok := TakeElems(et.value, count.value, depth + 1);
      return if ok then Got(None, rest) else Fail;
    }

    /** The element loop of an array. */
    method TakeElems(et: nat, count: nat, depth: nat) returns (ok: bool)
      modifies this
      ensures ReadElems(old(rest), et, count, depth) == if ok then Got((), rest) else Fail
      ensures |rest| <= |old(rest)|
      ensures turns == old(turns) + ElemsCost(old(rest), et, count, depth)
      decreases |rest|, 2
    {
      hide ReadVal, ValCost;
      var i := 0;
      while i < count
        invariant 0 <= i <= count && |rest| <= |old(rest)|
        invariant ReadElems(old(rest), et, count, depth) == ReadElems(rest, et, count - i, depth)
        invariant turns + ElemsCost(rest, et, count - i, depth) == old(turns) + ElemsCost(old(rest), et, count, depth)
      {
        turns := turns + 1;
        var v := TakeVal(et, depth);
        if v.Fail? { return false; }
        i := i + 1;
      }
      return true;
    }

    method TakeHeader() returns (r: Read<(nat, nat)>)
      modifies this`rest
      ensures r == ReadHeader(old(rest)) && (r.Got? ==> rest == r.rest)
    {
      var magic := TakeN(4);
      if magic.Fail? || magic.value != MAGIC { return Fail; }
      var version := TakeUint(4);
      if version.Fail? { return Fail; }
      var tensors := TakeUint(8);
      if tensors.Fail? { return Fail; }
      var kvs := TakeUint(8);
      if kvs.Fail? { return Fail; }
      return Got((tensors.value, kvs.value), kvs.rest);
    }

    method TakeKvs(n: nat) returns (r: Read<Meta>)
      modifies this
      ensures r == ReadKvs(old(rest), n, map[]) && (r.Got? ==> rest == r.rest)
      ensures turns == old(turns) + KvsCost(old(rest), n)
    {
      hide ReadVal, ReadText, ValCost;
      var m: Meta := map[];
      var i := 0;
      while i < n
        invariant 0 <= i <= n
        invariant ReadKvs(old(rest), n, map[]) == ReadKvs(rest, n - i, m)
        invariant turns + KvsCost(rest, n - i) == old(turns) + KvsCost(old(rest), n)
      {
        turns := turns + 1;
        var k := TakeText();
        if k.Fail? { return Fail; }
        var t := TakeUint(4);
        if t.Fail? { return Fail; }
        var v := TakeVal(t.value, 0);
        if v.Fail? { return Fail; }
        if v.value.Some? { m := m[k.value := v.value.value]; }
        i := i + 1;
      }
      return Got(m, rest);
    }

    /** `read_gguf_meta`, with the same bound on its iterations. */
    method TakeMeta() returns (r: Read<Meta>)
      modifies this
      ensures r == ReadMeta(old(rest))
      ensures turns <= old(turns) + |old(rest)|
    {
      hide ReadHeader, ReadKvs, KvsCost;
      var counts := TakeHeader();
      if counts.Fail? { return Fail; }
      KvsCostBound(counts.rest, counts.value.1, map[]);
      r := TakeKvs(counts.value.1);
    }

    method SkipTensorInfo() returns (r: Read<()>)
      modifies this
      ensures r == SkipInfo(old(rest)) && (r.Got? ==> rest == r.rest)
      ensures turns == old(turns) + InfoCost(old(rest))
    {
      var nd := TakeUint(4);
      if nd.Fail? { return Fail; }
      var i := 0;
      while i < nd.value
        invariant 0 <= i <= nd.value
        invariant SkipDims(nd.rest, nd.value) == SkipDims(rest, nd.value - i)
        invariant turns + DimsCost(rest, nd.value - i) == old(turns) + DimsCost(nd.rest, nd.value)
      {
        turns := turns + 1;
        var d := TakeUint(8);
        if d.Fail? { return Fail; }
        i := i + 1;
      }
      var kind := TakeUint(4);
      if kind.Fail? { return Fail; }
      var offset := TakeUint(8);
      if offset.Fail? { return Fail; }
      return Got((), offset.rest);
    }

    /** Started on a whole file, the scan starts no more iterations than the file
        has bytes. */
    method FindMtp() returns (found: bool)
      modifies this
      ensures found == HasMtpTensors(old(rest))
      ensures turns == old(turns) + MtpCost(old(rest)) <= old(turns) + |old(rest)|
    {
      hide IsMtpName, ReadText, SkipInfo, ReadHeader, ReadKvs, KvsCost, InfoCost;
      WorkBounded(rest);
      var counts := TakeHeader();
      if counts.Fail? { return false; }
      var kvs := TakeKvs(counts.value.1);
      if kvs.Fail? { return false; }
      ghost var before := turns;
      var n := counts.value.0;
      var i := 0;
      while i < n
        invariant 0 <= i <= n
        invariant ScanTensors(kvs.rest, n) == ScanTensors(rest, n - i)
        invariant turns + ScanCost(rest, n - i) == before + ScanCost(kvs.rest, n)
      {
        turns := turns + 1;
        var name := TakeText();
        if name.Fail? { return false; }
        if IsMtpName(name.value) { return true; }
        var info := SkipTensorInfo();
        if info.Fail? { return false; }
        i := i + 1;
      }
      return false;
    }
  }

  /** The cost of an array in terms of what its two counts are read as. */
  lemma ArrayCost(s: Bytes, depth: nat)
    requires depth < MAX_DEPTH
    ensures match ReadUint(s, 4)
      case Fail => ValCost(s, 9, depth) == 0
      case Got(et, s1) =>
        match ReadUint(s1, 8)
        case Fail => ValCost(s, 9, depth) == 0
        case Got(count, s2) => ValCost(s, 9, depth) == ElemsCost(s2, et, count, depth + 1)
  {
    hide LeValue, ElemsCost;
    if |s| >= 12 { assert s[4..][..8] == s[4..12] && s[4..][8..] == s[12..]; }
  }
}

/** The RequestFileTransfer service (SID 0x38, section 14.6 of ISO 14229-1) as the
    diagnostic backend encodes it, and the resume position it decodes. */
module FileTransfer {
  import opened Arith
  import opened Options

  type Byte = b: int | 0 <= b < 256
  type Uint16 = n: int | 0 <= n < 0x1_0000
  type Uint32 = n: int | 0 <= n < 0x1_0000_0000

  const SID: Byte := 0x38
  const BASE_LEN := 4

  /** The arguments of the stack's callback. `width` is the size parameter length. */
  datatype Request = Request(mode: Byte, path: seq<Byte>, format: Byte, width: Byte,
                             uncompressed: Uint32, compressed: Uint32)

  /** What a frame carries: absent parameters are absent, sizes are `width` bytes. */
  datatype Message =
    | PathOnly(mode: Byte, path: seq<Byte>)
    | WithFormat(path: seq<Byte>, format: Byte)
    | WithSizes(mode: Byte, path: seq<Byte>, format: Byte, width: Byte,
                uncompressed: nat, compressed: nat)

  predicate SizedMode(mode: Byte) { mode == 1 || mode == 3 || mode == 6 }

  /** The callers' side: a 16-bit path length, and size bytes that a 32-bit shift can produce. */
  predicate Encodable(r: Request) {
    |r.path| < 0x1_0000 && (SizedMode(r.mode) ==> r.width <= 4)
  }

  ghost predicate WellFormed(m: Message) {
    && |m.path| < 0x1_0000
    && match m
       case PathOnly(mode, _) => !SizedMode(mode) && mode != 4
       case WithFormat(_, _) => true
       case WithSizes(mode, _, _, w, u, c) => SizedMode(mode) && u < Power(256, w) && c < Power(256, w)
  }

  /** What the frame of a request says: sizes are cut to `width` bytes. */
  ghost function Meaning(r: Request): Message {
    PowerPositive(256, r.width);
    if SizedMode(r.mode) then
      WithSizes(r.mode, r.path, r.format, r.width,
                r.uncompressed % Power(256, r.width), r.compressed % Power(256, r.width))
    else if r.mode == 4 then WithFormat(r.path, r.format)
    else PathOnly(r.mode, r.path)
  }

  /** `n` modulo 256^w as `w` bytes, most significant first. */
  ghost function BigEndian(n: nat, w: nat): (bs: seq<Byte>)
    ensures |bs| == w
  {
    if w == 0 then [] else BigEndian(n / 256, w - 1) + [n % 256]
  }

  ghost function FromBigEndian(bs: seq<Byte>): nat {
    if bs == [] then 0 else FromBigEndian(bs[..|bs| - 1]) * 256 + bs[|bs| - 1]
  }

  function ModeOf(m: Message): Byte {
    if m.WithFormat? then 4 else m.mode
  }

  /** The layout of a message: service, mode, path length, path, parameters. */
  ghost function Layout(m: Message): seq<Byte>
    requires |m.path| < 0x1_0000
  {
    [SID, ModeOf(m)] + BigEndian(|m.path|, 2) + m.path + Parameters(m)
  }

  ghost function Parameters(m: Message): seq<Byte> {
    match m
    case PathOnly(_, _) => []
    case WithFormat(_, f) => [f]
    case WithSizes(_, _, f, w, u, c) => [f, w] + BigEndian(u, w) + BigEndian(c, w)
  }

  /** A receiver that follows the layout and accepts nothing else. */
  ghost function Parse(f: seq<Byte>): Option<Message> {
    if |f| < BASE_LEN || f[0] != SID then None
    else
      var n := FromBigEndian(f[2..4]);
      if |f| < BASE_LEN + n then None
      else ParseParameters(f[1], f[BASE_LEN..BASE_LEN + n], f[BASE_LEN + n..])
  }

  ghost function ParseParameters(mode: Byte, path: seq<Byte>, rest: seq<Byte>): Option<Message> {
    if SizedMode(mode) then
      if |rest| < 2 then None
      else
        var w: nat := rest[1];
        if |rest| != 2 + w + w then None
        else Some(WithSizes(mode, path, rest[0], rest[1], FromBigEndian(rest[2..2 + w]),
                            FromBigEndian(rest[2 + w..])))
    else if mode == 4 then
      if |rest| != 1 then None else Some(WithFormat(path, rest[0]))
    else if |rest| != 0 then None
    else Some(PathOnly(mode, path))
  }

  /** The laid-out bytes of a number are those of its residue, and read as that residue. */
  lemma {:induction false} BigEndianOfValue(n: nat, w: nat)
    ensures Power(256, w) > 0
    ensures FromBigEndian(BigEndian(n, w)) == n % Power(256, w)
    ensures BigEndian(n, w) == BigEndian(n % Power(256, w), w)
  {
    PowerPositive(256, w);
    if w > 0 {
      var p := Power(256, w - 1);
      PowerPositive(256, w - 1);
      BigEndianOfValue(n / 256, w - 1);
      LastByte(n, w, p, n % (256 * p));
    }
  }

  /** Splitting off the last byte of a number and of its residue `r`. */
  lemma LastByte(n: nat, w: nat, p: nat, r: nat)
    requires w > 0 && p > 0 && r == n % (256 * p)
    requires FromBigEndian(BigEndian(n / 256, w - 1)) == n / 256 % p
    requires BigEndian(n / 256, w - 1) == BigEndian(n / 256 % p, w - 1)
    ensures FromBigEndian(BigEndian(n, w)) == r && BigEndian(n, w) == BigEndian(r, w)
  {
    ModByProduct(n, 256, p);
    var front := BigEndian(n / 256, w - 1);
    assert BigEndian(n, w) == front + [n % 256];
    assert (front + [n % 256])[..w - 1] == front;
  }

  lemma {:induction false} ValueOfBigEndian(bs: seq<Byte>)
    ensures FromBigEndian(bs) < Power(256, |bs|)
    ensures BigEndian(FromBigEndian(bs), |bs|) == bs
  {
    if bs != [] {
      var front := bs[..|bs| - 1];
      ValueOfBigEndian(front);
      DivModUnique(FromBigEndian(bs), 256, FromBigEndian(front), bs[|bs| - 1]);
      assert bs == front + [bs[|bs| - 1]];
    }
  }

  lemma TwoBytes()
    ensures Power(256, 2) == 0x1_0000
  {
  }

  lemma SmallMod(n: nat, p: nat)
    requires n < p
    ensures n % p == n
  {
  }

  lemma ParametersThenParse(m: Message)
    requires WellFormed(m)
    ensures ParseParameters(ModeOf(m), m.path, Parameters(m)) == Some(m)
  {
    match m
    case WithSizes(mode, path, f, w, u, c) =>
      var rest := Parameters(m);
      BigEndianOfValue(u, w);
      BigEndianOfValue(c, w);
      SmallMod(u, Power(256, w));
      SmallMod(c, Power(256, w));
      assert rest[2..2 + w as nat] == BigEndian(u, w);
      assert rest[2 + w as nat..] == BigEndian(c, w);
    case _ =>
  }

  lemma LengthBytes(n: nat)
    requires n < 0x1_0000
    ensures n / 256 < 256 && BigEndian(n, 2) == [n / 256, n % 256]
    ensures FromBigEndian([n / 256, n % 256]) == n
  {
    var high, low := n / 256, n % 256;
    assert BigEndian(high, 1) == BigEndian(high / 256, 0) + [high];
    assert BigEndian(n, 2) == BigEndian(high, 1) + [low];
    assert [high, low][..1] == [high] && [high][..0] == [];
    assert FromBigEndian([high]) == high;
  }

  lemma SplitFrame(mode: Byte, len: seq<Byte>, path: seq<Byte>, rest: seq<Byte>)
    requires |len| == 2
    ensures var f := [SID, mode] + len + path + rest;
            && |f| >= 4 + |path| && f[0] == SID && f[1] == mode && f[2..4] == len
            && f[4..4 + |path|] == path && f[4 + |path|..] == rest
  {
  }

  /** Every well-formed message survives the layout. */
  lemma LayoutThenParse(m: Message)
    requires WellFormed(m)
    ensures Parse(Layout(m)) == Some(m)
  {
    var n := |m.path|;
    LengthBytes(n);
    SplitFrame(ModeOf(m), BigEndian(n, 2), m.path, Parameters(m));
    ParametersThenParse(m);
  }

  lemma ParseThenParameters(mode: Byte, path: seq<Byte>, rest: seq<Byte>)
    requires |path| < 0x1_0000
    ensures var m := ParseParameters(mode, path, rest);
            m.Some? ==> && WellFormed(m.value) && ModeOf(m.value) == mode
                        && m.value.path == path && Parameters(m.value) == rest
  {
    if SizedMode(mode) && ParseParameters(mode, path, rest).Some? {
      var w: nat := rest[1];
      ValueOfBigEndian(rest[2..2 + w]);
      ValueOfBigEndian(rest[2 + w..]);
      assert rest == [rest[0], rest[1]] + rest[2..2 + w] + rest[2 + w..];
    }
  }

  /** Every accepted frame is the layout of what was read from it. */
  lemma ParseThenLayout(f: seq<Byte>)
    ensures Parse(f).Some? ==> WellFormed(Parse(f).value) && Layout(Parse(f).value) == f
  {
    if Parse(f).Some? {
      var n := FromBigEndian(f[2..4]);
      ValueOfBigEndian(f[2..4]);
      TwoBytes();
      ParseThenParameters(f[1], f[4..4 + n], f[4 + n..]);
      assert f == [f[0], f[1]] + f[2..4] + f[4..4 + n] + f[4 + n..];
    }
  }

  /** The frame of any request that fits is read back as the request, its sizes
      modulo 256^width; its length is fixed by the mode, path and width. */
  lemma RoundTrip(r: Request)
    requires Encodable(r)
    ensures Parse(Frame(r)) == Some(Meaning(r))
    ensures |Frame(r)| == BASE_LEN + |r.path| +
                          if SizedMode(r.mode) then 2 + 2 * r.width else if r.mode == 4 then 1 else 0
  {
    PowerPositive(256, r.width);
    LayoutThenParse(Meaning(r));
  }

  ghost function Frame(r: Request): seq<Byte>
    requires Encodable(r)
  {
    Layout(Meaning(r))
  }

  /** The bytes of a request: service 0x38, mode, 16-bit path length and path; for adding,
      replacing and resuming also the format, the width and the two sizes, the uncompressed one
      first; for reading only the format. */
  ghost predicate RequestBytes(f: seq<Byte>, r: Request) {
    var n, w: nat := |r.path|, r.width;
    if r.mode == 1 || r.mode == 3 || r.mode == 6 then
      && |f| == n + 6 + w + w && Head(f, r) && f[n + 4] == r.format && f[n + 5] == r.width
      && f[n + 6..n + 6 + w] == BigEndian(r.uncompressed, w) && f[n + 6 + w..] == BigEndian(r.compressed, w)
    else if r.mode == 4 then |f| == n + 5 && Head(f, r) && f[n + 4] == r.format
    else |f| == n + 4 && Head(f, r)
  }

  ghost predicate Head(f: seq<Byte>, r: Request)
    requires |f| >= |r.path| + 4
  {
    && f[0] == 0x38 && f[1] == r.mode && f[2] as int * 256 + f[3] == |r.path| && f[4..|r.path| + 4] == r.path
  }

  lemma FrameHead(r: Request)
    requires Encodable(r)
    ensures |Frame(r)| >= |r.path| + 4 && Head(Frame(r), r)
    ensures Frame(r)[|r.path| + 4..] == Parameters(Meaning(r))
  {
    LengthBytes(|r.path|);
    SplitFrame(r.mode, BigEndian(|r.path|, 2), r.path, Parameters(Meaning(r)));
  }

  lemma SplitSizes(f: seq<Byte>, at: nat, a: Byte, b: Byte, u: seq<Byte>, c: seq<Byte>)
    requires at <= |f| && f[at..] == [a, b] + u + c
    ensures |f| == at + 2 + |u| + |c| && f[at] == a && f[at + 1] == b
    ensures f[at + 2..at + 2 + |u|] == u && f[at + 2 + |u|..] == c
  {
    assert f == f[..at] + [a, b] + u + c;
  }

  lemma ParameterBytes(r: Request)
    requires Encodable(r)
    ensures Parameters(Meaning(r)) ==
            if r.mode == 1 || r.mode == 3 || r.mode == 6
            then [r.format, r.width] + BigEndian(r.uncompressed, r.width) + BigEndian(r.compressed, r.width)
            else if r.mode == 4 then [r.format] else []
  {
    if SizedMode(r.mode) {
      BigEndianOfValue(r.uncompressed, r.width);
      BigEndianOfValue(r.compressed, r.width);
    }
  }

  lemma BytesAfterHead(f: seq<Byte>, r: Request, u: seq<Byte>, c: seq<Byte>)
    requires |f| >= |r.path| + 4 && Head(f, r)
    requires u == BigEndian(r.uncompressed, r.width) && c == BigEndian(r.compressed, r.width)
    requires f[|r.path| + 4..] == if r.mode == 1 || r.mode == 3 || r.mode == 6 then [r.format, r.width] + u + c
                                  else if r.mode == 4 then [r.format] else []
    ensures RequestBytes(f, r)
  {
    var at := |r.path| + 4;
    if r.mode == 1 || r.mode == 3 || r.mode == 6 {
      SplitSizes(f, at, r.format, r.width, u, c);
    } else if r.mode == 4 {
      assert f[at] == f[at..][0];
    }
  }

  lemma FrameBytes(r: Request)
    requires Encodable(r)
    ensures RequestBytes(Frame(r), r)
  {
    FrameHead(r);
    ParameterBytes(r);
    BytesAfterHead(Frame(r), r, BigEndian(r.uncompressed, r.width), BigEndian(r.compressed, r.width));
  }

  /** Byte `w-1-i` of a big-endian number, by shifting, is its `i`-th laid-out byte. */
  lemma {:induction false} ShiftedByte(n: nat, w: nat, i: nat)
    requires i < w
    ensures Power(256, w - 1 - i) > 0
    ensures BigEndian(n, w)[i] == n / Power(256, w - 1 - i) % 256
  {
    PowerPositive(256, w - 1 - i);
    if i < w - 1 {
      PowerPositive(256, w - 2 - i);
      ShiftedByte(n / 256, w - 1, i);
      ModByProduct(n, 256, Power(256, w - 2 - i));
    } else {
      assert Power(256, 0) == 1;
    }
  }

  /** Writes the `w` bytes of a size at `at`, most significant first. */
  method PutSize(data: array<Byte>, at: nat, w: nat, size: Uint32) returns (end: nat)
    requires at + w <= data.Length
    modifies data
    ensures end == at + w
    ensures data[at..end] == BigEndian(size, w)
    ensures data[..at] == old(data[..at])
    ensures forall i | end <= i < data.Length :: data[i] == old(data[i])
  {
    end := at;
    for i := 0 to w
      invariant end == at + i
      invariant data[at..end] == BigEndian(size, w)[..i]
      invariant data[..at] == old(data[..at])
      invariant forall i | at + w <= i < data.Length :: data[i] == old(data[i])
    {
      ShiftedByte(size, w, i);
      data[end] := size / Power256(w - 1 - i) % 256;
      end := end + 1;
    }
  }

  /** The divisor that a right shift by `8 * k` bits stands for. */
  function Power256(k: nat): (p: nat)
    ensures p == Power(256, k) && p > 0
  {
    if k == 0 then 1 else 256 * Power256(k - 1)
  }

  /** Writes the fixed part of the frame and the path. */
  method PutHead(r: Request, data: array<Byte>) returns (len: nat)
    requires |r.path| < 0x1_0000 && BASE_LEN + |r.path| <= data.Length
    modifies data
    ensures len == BASE_LEN + |r.path|
    ensures data[..len] == [SID, r.mode] + BigEndian(|r.path|, 2) + r.path
    ensures forall i | len <= i < data.Length :: data[i] == old(data[i])
  {
    var n := |r.path|;
    data[0] := SID;
    data[1] := r.mode;
    data[2] := n / 256;
    data[3] := n % 256;
    len := BASE_LEN;
    forall i | 0 <= i < n {
      data[len + i] := r.path[i];
    }
    len := len + n;
    LengthBytes(n);
    assert data[..len] == data[..2] + data[2..4] + data[4..len];
    assert data[..2] == [SID, r.mode] && data[2..4] == BigEndian(n, 2) && data[4..len] == r.path;
  }

  /** Writes the format, the width and both sizes. */
  method PutSizes(format: Byte, w: Byte, u: Uint32, c: Uint32, data: array<Byte>, at: nat)
    returns (len: nat)
    requires at + 2 + w + w <= data.Length
    modifies data
    ensures len == at + 2 + w + w
    ensures data[..at] == old(data[..at])
    ensures data[at..len] == [format, w] + BigEndian(u, w) + BigEndian(c, w)
    ensures forall i | len <= i < data.Length :: data[i] == old(data[i])
  {
    ghost var before := data[..at];
    data[at] := format;
    data[at + 1] := w;
    assert data[..at + 2] == before + [format, w];
    len := PutSize(data, at + 2, w, u);
    assert data[..len] == data[..at + 2] + data[at + 2..len];
    assert data[..len] == before + [format, w] + BigEndian(u, w);
    ghost var middle := len;
    len := PutSize(data, len, w, c);
    assert data[..len] == data[..middle] + data[middle..len];
    assert data[..len] == before + [format, w] + BigEndian(u, w) + BigEndian(c, w);
    DropHead(before, [format, w], BigEndian(u, w), BigEndian(c, w));
    assert data[at..len] == data[..len][at..];
  }

  lemma DropHead(head: seq<Byte>, a: seq<Byte>, b: seq<Byte>, c: seq<Byte>)
    ensures (head + a + b + c)[|head|..] == a + b + c
    ensures (head + a + b + c)[..|head|] == head
  {
  }

  /** Writes the parameters that follow the path. */
  method PutParameters(r: Request, data: array<Byte>, at: nat) returns (len: nat)
    requires Encodable(r) && at + |Parameters(Meaning(r))| <= data.Length
    modifies data
    ensures len == at + |Parameters(Meaning(r))|
    ensures data[..at] == old(data[..at])
    ensures data[at..len] == Parameters(Meaning(r))
    ensures forall i | len <= i < data.Length :: data[i] == old(data[i])
  {
    len := at;
    if SizedMode(r.mode) {
      BigEndianOfValue(r.uncompressed, r.width);
      BigEndianOfValue(r.compressed, r.width);
      len := PutSizes(r.format, r.width, r.uncompressed, r.compressed, data, at);
    } else if r.mode == 4 {
      data[len] := r.format;
      len := len + 1;
    }
  }

  /** Fills a zeroed message buffer with the request; `len` is the frame length. */
  method EncodeRequest(r: Request, data: array<Byte>) returns (len: nat)
    requires Encodable(r)
    requires |Frame(r)| <= data.Length
    requires forall i | 0 <= i < data.Length :: data[i] == 0
    modifies data
    ensures len == |Frame(r)| && data[..len] == Frame(r) && RequestBytes(data[..len], r)
    ensures forall i | len <= i < data.Length :: data[i] == 0
  {
    FrameBytes(r);
    var at := PutHead(r, data);
    len := PutParameters(r, data, at);
    assert data[..len] == data[..at] + data[at..len];
  }

  // ----- The resume position -----

  /** Bitwise or on naturals, bit by bit. */
  function BitOr(x: nat, y: nat): nat {
    if x == 0 then y
    else 2 * BitOr(x / 2, y / 2) + if x % 2 == 1 || y % 2 == 1 then 1 else 0
  }

  lemma OrTwice(x: nat, h: nat)
    requires x > 0
    ensures BitOr(x, 2 * h) == 2 * BitOr(x / 2, h) + x % 2
  {
    assert 2 * h / 2 == h && 2 * h % 2 == 0;
  }

  lemma TwiceProduct(y: nat, p: nat, q: nat)
    requires q == 2 * p
    ensures y * q == 2 * (y * p)
  {
    MulDistributes(y, p, p);
  }

  /** Or with a number whose low `k` bits are clear adds, when the other has only those bits. */
  lemma {:induction false} OrOfDisjointBits(x: nat, y: nat, k: nat)
    requires x < Power(2, k)
    ensures BitOr(x, y * Power(2, k)) == x + y * Power(2, k)
  {
    if x > 0 {
      var p := Power(2, k - 1);
      OrOfDisjointBits(x / 2, y, k - 1);
      TwiceProduct(y, p, Power(2, k));
      OrTwice(x, y * p);
    }
  }

  ghost function LittleEndianSum(bs: seq<Byte>): nat {
    if bs == [] then 0 else LittleEndianSum(bs[..|bs| - 1]) + bs[|bs| - 1] * Power(2, 8 * (|bs| - 1))
  }

  lemma SumStep(bs: seq<Byte>, i: nat, p: nat)
    requires i < |bs| && p == Power(2, 8 * i)
    ensures LittleEndianSum(bs[..i + 1]) == LittleEndianSum(bs[..i]) + bs[i] * p
  {
    assert bs[..i + 1][..i] == bs[..i];
  }

  lemma BytePowers()
    ensures Power(2, 0) == 1 && Power(2, 8) == 0x100 && Power(2, 16) == 0x1_0000 && Power(2, 24) == 0x100_0000
    ensures Power(2, 32) == 0x1_0000_0000 && Power(2, 40) == 0x100_0000_0000
    ensures Power(2, 48) == 0x1_0000_0000_0000 && Power(2, 56) == 0x100_0000_0000_0000
  {
    PowerByte(0);
    PowerByte(1);
    PowerByte(2);
    PowerByte(3);
    PowerByte(4);
    PowerByte(5);
    PowerByte(6);
  }

  lemma FourBytes(bs: seq<Byte>)
    requires |bs| == 8
    ensures LittleEndianSum(bs[..4]) ==
            bs[0] as int + bs[1] as int * 0x100 + bs[2] as int * 0x1_0000 + bs[3] as int * 0x100_0000
  {
    BytePowers();
    SumStep(bs, 0, 1);
    SumStep(bs, 1, 0x100);
    SumStep(bs, 2, 0x1_0000);
    SumStep(bs, 3, 0x100_0000);
    assert bs[..0] == [];
  }

  /** Eight bytes, the first of least weight. */
  lemma EightBytes(bs: seq<Byte>)
    requires |bs| == 8
    ensures LittleEndianSum(bs) ==
            bs[0] as int + bs[1] as int * 0x100 + bs[2] as int * 0x1_0000 + bs[3] as int * 0x100_0000
            + bs[4] as int * 0x1_0000_0000 + bs[5] as int * 0x100_0000_0000
            + bs[6] as int * 0x1_0000_0000_0000 + bs[7] as int * 0x100_0000_0000_0000
  {
    FourBytes(bs);
    BytePowers();
    SumStep(bs, 4, 0x1_0000_0000);
    SumStep(bs, 5, 0x100_0000_0000);
    SumStep(bs, 6, 0x1_0000_0000_0000);
    SumStep(bs, 7, 0x100_0000_0000_0000);
    assert bs[..8] == bs;
  }

  /** The shift by `k` bits. */
  function ShiftLeft(x: nat, k: nat): (r: nat)
    ensures r == x * Power(2, k)
  {
    if k == 0 then x else 2 * ShiftLeft(x, k - 1)
  }

  lemma {:induction false} PowerByte(i: nat)
    ensures Power(2, 8 * (i + 1)) == 256 * Power(2, 8 * i)
  {
    var k := 8 * i;
    assert Power(2, k + 8) == 2 * Power(2, k + 7) && Power(2, k + 7) == 2 * Power(2, k + 6);
    assert Power(2, k + 6) == 2 * Power(2, k + 5) && Power(2, k + 5) == 2 * Power(2, k + 4);
    assert Power(2, k + 4) == 2 * Power(2, k + 3) && Power(2, k + 3) == 2 * Power(2, k + 2);
    assert Power(2, k + 2) == 2 * Power(2, k + 1) && Power(2, k + 1) == 2 * Power(2, k);
  }

  lemma OrByte(pos: nat, b: Byte, i: nat)
    requires pos < Power(2, 8 * i)
    ensures BitOr(pos, b * Power(2, 8 * i)) == pos + b * Power(2, 8 * i) < Power(2, 8 * (i + 1))
  {
    OrOfDisjointBits(pos, b, 8 * i);
    PowerByte(i);
    MulAtMost(b, 255, Power(2, 8 * i));
  }

  lemma MulAtMost(a: nat, b: nat, p: nat)
    requires a <= b
    ensures a * p <= b * p
  {
  }

  /** The loop of ors is the sum of all eight bytes, and fits 64 bits. */
  method ResumePosition(data: array<Byte>) returns (pos: nat)
    requires data.Length >= 8
    ensures pos == LittleEndianSum(data[..8])
    ensures pos == data[0] as int + data[1] as int * 0x100 + data[2] as int * 0x1_0000
                   + data[3] as int * 0x100_0000 + data[4] as int * 0x1_0000_0000
                   + data[5] as int * 0x100_0000_0000 + data[6] as int * 0x1_0000_0000_0000
                   + data[7] as int * 0x100_0000_0000_0000
    ensures pos < Power(2, 64)
  {
    EightBytes(data[..8]);
    pos := 0;
    for i := 0 to 8
      invariant pos == LittleEndianSum(data[..i])
      invariant pos < Power(2, 8 * i)
    {
      assert data[..i + 1][..i] == data[..i];
      OrByte(pos, data[i], i);
      pos := BitOr(pos, ShiftLeft(data[i], 8 * i));
    }
  }
}

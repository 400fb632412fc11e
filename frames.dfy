/** What the frame operations of util.c do to a channel, stated on values.

    A channel is the queue of bytes written into it and not yet read.  Each
    read(2) or write(2) the operations issue is a primitive whose outcome the
    environment chooses: it fails, or it transfers some of the bytes asked for.
    The functions below give, for every choice, the result of an operation and
    the bytes it takes from (readop, readbuf) or puts on (writeop, writebuf)
    the channel.  The imperative methods in module Util are proved to behave
    exactly as these functions say. */
module Frames {
  import opened Codec

  datatype Option<T> = None | Some(value: T)

  /** How one read(2) turns out. */
  datatype ReadOutcome =
    | ReadFails             // returns -1
    | ReadUpTo(limit: nat)  // hands over at most `limit` of the waiting bytes

  /** How one write(2) turns out. */
  datatype WriteOutcome =
    | WriteFails             // returns -1
    | WriteBrokenPipe        // the reader is gone: SIGPIPE is raised, then -1
    | WriteUpTo(limit: nat)  // accepts at most `limit` of the bytes offered

  function Min(a: int, b: int): int
  {
    if a <= b then a else b
  }

  /** The count read(2) returns when asked for n bytes while `avail` wait. */
  function ReadCount(avail: seq<byte>, n: nat, o: ReadOutcome): (k: int)
    ensures k == -1 <==> o.ReadFails?
    ensures k != -1 ==> 0 <= k <= n && k <= |avail|
  {
    match o
    case ReadFails => -1
    case ReadUpTo(limit) => Min(Min(limit, n), |avail|)
  }

  /** The count write(2) returns when offered n bytes. */
  function WriteCount(n: nat, o: WriteOutcome): (k: int)
    ensures k == -1 <==> !o.WriteUpTo?
    ensures k != -1 ==> 0 <= k <= n
  {
    match o
    case WriteUpTo(limit) => Min(limit, n)
    case _ => -1
  }

  /** A read of n bytes from `avail` hands over all n. */
  predicate Fills(o: ReadOutcome, avail: seq<byte>, n: nat)
  {
    o.ReadUpTo? && n <= o.limit && n <= |avail|
  }

  /** A write of n bytes transfers all n. */
  predicate Completes(o: WriteOutcome, n: nat)
  {
    o.WriteUpTo? && n <= o.limit
  }

  predicate IsSuffix(t: seq<byte>, s: seq<byte>)
  {
    |t| <= |s| && t == s[|s| - |t|..]
  }

  // ---------------------------------------------------------------------
  // Operation frames

  /** The three outcomes of readop. */
  datatype OpRead = OpValue(v: int) | OpEof | OpFail

  datatype OpGot = OpGot(op: OpRead, rest: seq<byte>)

  /** readop on a channel holding `avail`: its outcome and the bytes left. */
  function ReadOpResult(avail: seq<byte>, o: ReadOutcome): (r: OpGot)
    ensures r.op.OpValue? <==> Fills(o, avail, W)
    ensures r.op.OpValue? ==> r.op.v == DecodeLong(avail[..W]) && r.rest == avail[W..]
    ensures r.op == OpEof <==> o.ReadUpTo? && (o.limit == 0 || avail == [])
    ensures r.op == OpEof ==> r.rest == avail
    ensures IsSuffix(r.rest, avail)
  {
    var ssz := ReadCount(avail, W, o);
    if ssz < 0 then OpGot(OpFail, avail)
    else if ssz != 0 && ssz != W then OpGot(OpFail, avail[ssz..])
    else if ssz == 0 then OpGot(OpEof, avail)
    else OpGot(OpValue(DecodeLong(avail[..W])), avail[W..])
  }

  /** The `long` readop hands its caller: 0 stands for end of channel and
      LONG_MAX for failure. */
  function OpLong(r: OpRead): (n: int)
    ensures r.OpValue? ==> n == r.v
    ensures n == 0 <==> r == OpEof || r == OpValue(0)
    ensures n == LONG_MAX <==> r == OpFail || r == OpValue(LONG_MAX)
  {
    match r
    case OpValue(v) => v
    case OpEof => 0
    case OpFail => LONG_MAX
  }

  /** The `long` result loses the three-way outcome at exactly two points:
      a received 0 looks like end of channel and a received LONG_MAX looks
      like failure.  Every other value is told apart from both. */
  lemma SentinelCollision(a: OpRead, b: OpRead)
    requires a != b
    ensures OpLong(a) == OpLong(b) <==>
      ({a, b} == {OpValue(0), OpEof} || {a, b} == {OpValue(LONG_MAX), OpFail})
  {
  }

  /** What a write leaves behind: whether it reports success, and the bytes it
      put on the channel. */
  datatype Sent = Sent(ok: bool, bytes: seq<byte>)

  /** writeop of `op`. */
  function WriteOpResult(op: int, o: WriteOutcome): (r: Sent)
    requires IsLong(op)
    ensures r.ok <==> Completes(o, W)
    ensures r.ok ==> r.bytes == EncodeLong(op)
    ensures r.bytes <= EncodeLong(op)
    ensures !r.ok ==> |r.bytes| < W
  {
    var ssz := WriteCount(W, o);
    if ssz < 0 then Sent(false, [])
    else if ssz != W then Sent(false, EncodeLong(op)[..ssz])
    else Sent(true, EncodeLong(op))
  }

  /** writeop raises SIGPIPE exactly when its one write hits a closed channel. */
  predicate WriteOpRaises(o: WriteOutcome)
  {
    o.WriteBrokenPipe?
  }

  lemma OpRoundTrip(x: int, rest: seq<byte>, ow: WriteOutcome, or: ReadOutcome)
    requires IsLong(x)
    requires Completes(ow, W) && or.ReadUpTo? && W <= or.limit
    ensures ReadOpResult(WriteOpResult(x, ow).bytes + rest, or) == OpGot(OpValue(x), rest)
    ensures OpLong(ReadOpResult(WriteOpResult(x, ow).bytes + rest, or).op) == x
  {
    var frame := EncodeLong(x) + rest;
    assert frame[..W] == EncodeLong(x) && frame[W..] == rest;
    LongRoundTrip(x);
  }

  /** A frame cut short by an early end of channel reads as a failure, not as
      a value. */
  lemma TruncatedOpFails(x: int, k: nat, or: ReadOutcome)
    requires IsLong(x) && 0 < k < W && or.ReadUpTo? && 0 < or.limit
    ensures ReadOpResult(EncodeLong(x)[..k], or).op == OpFail
  {
  }

  // ---------------------------------------------------------------------
  // Buffer frames

  /** What a buffer read leaves behind: the receiver's copy, if any, and the
      bytes left on the channel. */
  datatype BufGot = BufGot(buf: Option<seq<byte>>, rest: seq<byte>)

  /** The allocation size readbuf computes for a length field holding sz, in
      `size_t` arithmetic. */
  function AllocSize(sz: nat): (n: nat)
    requires sz <= SIZE_MAX
    ensures n < WORD
    ensures n == sz + 1 || (sz == SIZE_MAX && n == 0)
  {
    (sz + 1) % WORD
  }

  /** As written, the allocation has room for the payload and its terminator
      for every length except SIZE_MAX, where `sz + 1` wraps to 0. */
  lemma AllocSizeWraps(sz: nat)
    requires sz <= SIZE_MAX
    ensures AllocSize(sz) >= sz + 1 <==> sz < SIZE_MAX
    ensures AllocSize(SIZE_MAX) == 0
  {
  }

  /** readbuf on a channel holding `avail`; `allocOk` says whether the
      allocation succeeds.  A length field of SIZE_MAX is refused like a failed
      allocation, because no buffer of SIZE_MAX + 1 bytes can be asked for. */
  function ReadBufResult(avail: seq<byte>, olen: ReadOutcome, allocOk: bool,
                         opay: ReadOutcome): (r: BufGot)
    ensures r.buf.Some? <==>
      Fills(olen, avail, W) && DecodeSize(avail[..W]) < SIZE_MAX && allocOk &&
      Fills(opay, avail[W..], DecodeSize(avail[..W]))
    ensures r.buf.Some? ==>
      var n := DecodeSize(avail[..W]);
      r.buf.value == avail[W..W + n] + [0] && r.rest == avail[W + n..]
    ensures IsSuffix(r.rest, avail)
  {
    var ssz := ReadCount(avail, W, olen);
    if ssz < 0 then BufGot(None, avail)
    else if ssz != W then BufGot(None, avail[ssz..])
    else
      var sz := DecodeSize(avail[..W]);
      var after := avail[W..];
      if sz == SIZE_MAX || !allocOk then BufGot(None, after)
      else
        var got := ReadCount(after, sz, opay);
        if got < 0 then BufGot(None, after)
        else if got != sz then BufGot(None, after[got..])
        else BufGot(Some(after[..sz] + [0]), after[sz..])
  }

  /** writebuf of the first sz bytes of v. */
  function WriteBufResult(v: seq<byte>, o1: WriteOutcome, o2: WriteOutcome): (r: Sent)
    requires |v| <= SIZE_MAX
    ensures r.ok <==> Completes(o1, W) && Completes(o2, |v|)
    ensures r.ok ==> r.bytes == EncodeSize(|v|) + v
    ensures r.bytes <= EncodeSize(|v|) + v
    ensures !r.ok ==> |r.bytes| < W + |v| || (v == [] && r.bytes == EncodeSize(0))
    ensures !Completes(o1, W) ==> |r.bytes| < W
  {
    var ssz := WriteCount(W, o1);
    if ssz < 0 then Sent(false, [])
    else if ssz != W then Sent(false, EncodeSize(|v|)[..ssz])
    else
      var got := WriteCount(|v|, o2);
      if got < 0 then Sent(false, EncodeSize(|v|))
      else Sent(got == |v|, EncodeSize(|v|) + v[..got])
  }

  /** writebuf raises SIGPIPE when its length write hits a closed channel, or
      when the payload write does after a complete length write. */
  predicate WriteBufRaises(o1: WriteOutcome, o2: WriteOutcome)
  {
    o1.WriteBrokenPipe? || (Completes(o1, W) && o2.WriteBrokenPipe?)
  }

  lemma BufRoundTrip(v: seq<byte>, rest: seq<byte>, o1: WriteOutcome, o2: WriteOutcome,
                     olen: ReadOutcome, opay: ReadOutcome)
    requires |v| < SIZE_MAX
    requires Completes(o1, W) && Completes(o2, |v|)
    requires olen.ReadUpTo? && W <= olen.limit && opay.ReadUpTo? && |v| <= opay.limit
    ensures ReadBufResult(WriteBufResult(v, o1, o2).bytes + rest, olen, true, opay)
            == BufGot(Some(v + [0]), rest)
  {
    var frame := EncodeSize(|v|) + v + rest;
    assert frame[..W] == EncodeSize(|v|);
    assert frame[W..] == v + rest;
    assert (v + rest)[..|v|] == v && (v + rest)[|v|..] == rest;
    SizeRoundTrip(|v|);
  }

  /** A buffer frame cut short anywhere, in its length or in its payload,
      yields no buffer at all. */
  lemma TruncatedBufFails(v: seq<byte>, k: nat, olen: ReadOutcome, allocOk: bool,
                          opay: ReadOutcome)
    requires |v| <= SIZE_MAX && k < W + |v|
    ensures ReadBufResult((EncodeSize(|v|) + v)[..k], olen, allocOk, opay).buf.None?
  {
    var cut := (EncodeSize(|v|) + v)[..k];
    if k >= W {
      assert cut[..W] == EncodeSize(|v|);
      SizeRoundTrip(|v|);
      assert |cut[W..]| < |v|;
    }
  }

  /** A reader of a channel holding only what one complete writebuf put on it
      gets the payload back when it reads in full. */
  lemma BufWrittenThenRead(v: seq<byte>, o1: WriteOutcome, o2: WriteOutcome,
                           olen: ReadOutcome, opay: ReadOutcome)
    requires |v| < SIZE_MAX
    requires WriteBufResult(v, o1, o2).ok
    requires olen.ReadUpTo? && W <= olen.limit && opay.ReadUpTo? && |v| <= opay.limit
    ensures ReadBufResult(WriteBufResult(v, o1, o2).bytes, olen, true, opay).buf
            == Some(v + [0])
  {
    assert WriteBufResult(v, o1, o2).bytes + [] == WriteBufResult(v, o1, o2).bytes;
    BufRoundTrip(v, [], o1, o2, olen, opay);
  }

  /** A buffer read from a channel holding only what one writebuf put on it is
      always the payload; it comes out of a write that reported failure only
      when the payload was empty and the write of those zero bytes failed, the
      frame being whole all the same. */
  lemma BufReadOnlyFromWholeFrame(v: seq<byte>, o1: WriteOutcome, o2: WriteOutcome,
                                  olen: ReadOutcome, opay: ReadOutcome)
    requires |v| < SIZE_MAX
    requires ReadBufResult(WriteBufResult(v, o1, o2).bytes, olen, true, opay).buf.Some?
    ensures WriteBufResult(v, o1, o2).ok || v == []
    ensures ReadBufResult(WriteBufResult(v, o1, o2).bytes, olen, true, opay).buf
            == Some(v + [0])
  {
    var sent := WriteBufResult(v, o1, o2);
    var frame := EncodeSize(|v|) + v;
    if |sent.bytes| < |frame| {
      assert frame[..|sent.bytes|] == sent.bytes;
      TruncatedBufFails(v, |sent.bytes|, olen, true, opay);
      assert false;
    }
    assert sent.bytes == frame;
    assert frame[..W] == EncodeSize(|v|) && frame[W..W + |v|] == v;
    SizeRoundTrip(|v|);
  }

  // ---------------------------------------------------------------------
  // Text frames

  /** The length of the NUL-terminated string at the start of s. */
  function Strlen(s: seq<byte>): (n: nat)
    requires 0 in s
    ensures n < |s| && s[n] == 0 && 0 !in s[..n]
  {
    if s[0] == 0 then 0
    else
      assert 0 in s[1..] by {
        var i :| 0 <= i < |s| && s[i] == 0;
        assert s[1..][i - 1] == 0;
      }
      1 + Strlen(s[1..])
  }

  /** A string sent by writestr and received by readstr comes back as the
      same C string, its terminator included. */
  lemma StrRoundTrip(v: seq<byte>, rest: seq<byte>, o1: WriteOutcome, o2: WriteOutcome,
                     olen: ReadOutcome, opay: ReadOutcome)
    requires 0 in v && Strlen(v) < SIZE_MAX
    requires Completes(o1, W) && Completes(o2, Strlen(v))
    requires olen.ReadUpTo? && W <= olen.limit && opay.ReadUpTo? && Strlen(v) <= opay.limit
    ensures ReadBufResult(WriteBufResult(v[..Strlen(v)], o1, o2).bytes + rest, olen, true, opay)
            == BufGot(Some(v[..Strlen(v) + 1]), rest)
  {
    var n := Strlen(v);
    BufRoundTrip(v[..n], rest, o1, o2, olen, opay);
    assert v[..n] + [0] == v[..n + 1];
  }
}

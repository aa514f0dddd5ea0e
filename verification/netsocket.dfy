/**
 * The sample server's byte-level logic: the Fletcher-16 checksum and the
 * two variants of the `event::data` handler (the plain one that is compiled
 * by default, and the one selected by DO_INTEGRITY_CHECKING).
 *
 * Sockets, events and console output are not modelled: a handler is a pure
 * function from the received buffer and the current statistics to either a
 * rejection (the source calls `unref()` and returns) or an acceptance that
 * carries the bytes written back and the updated statistics.
 */
module NetSocket {
  import opened Wrappers

  newtype uint8 = x: int | 0 <= x < 0x100
  newtype uint16 = x: int | 0 <= x < 0x1_0000
  newtype uint32 = x: int | 0 <= x < 0x1_0000_0000
  newtype uint64 = x: int | 0 <= x < 0x1_0000_0000_0000_0000

  const TWO_TO_THE_64: int := 0x1_0000_0000_0000_0000

  /** `a += b` on a `uint64_t` field: wraps around modulo 2^64. */
  function AddWrap(a: uint64, b: int): (r: uint64)
    requires 0 <= b
    ensures r as int == (a as int + b) % TWO_TO_THE_64
    ensures a as int + b < TWO_TO_THE_64 ==> r as int == a as int + b
  {
    ((a as int + b) % TWO_TO_THE_64) as uint64
  }

  // ---------------------------------------------------------------------
  // Fletcher-16
  // ---------------------------------------------------------------------

  /** Sum of the bytes, without any reduction. */
  function ByteSum(data: seq<uint8>): nat
  {
    if |data| == 0 then 0 else ByteSum(data[..|data| - 1]) + data[|data| - 1] as nat
  }

  /** Sum of the byte sums of every non-empty prefix of `data`. */
  function PrefixSums(data: seq<uint8>): nat
  {
    if |data| == 0 then 0 else PrefixSums(data[..|data| - 1]) + ByteSum(data)
  }

  /**
   * The pair (sum1, sum2) after the checksum loop has consumed `data`,
   * one step per byte: sum1 := (sum1 + byte) % 255; sum2 := (sum2 + sum1) % 255.
   */
  function Sums(data: seq<uint8>): (s: (int, int))
    ensures 0 <= s.0 < 255 && 0 <= s.1 < 255
  {
    if |data| == 0 then (0, 0)
    else
      var prev := Sums(data[..|data| - 1]);
      var sum1 := (prev.0 + data[|data| - 1] as int) % 255;
      (sum1, (prev.1 + sum1) % 255)
  }

  /** The checksum the sample computes over `data`: sum2 in the high byte, sum1 in the low byte. */
  function Checksum(data: seq<uint8>): uint16
  {
    (Sums(data).1 * 256 + Sums(data).0) as uint16
  }

  /** The high byte of the checksum is sum2 and the low byte is sum1. */
  lemma ChecksumBytesAreSums(data: seq<uint8>)
    ensures Checksum(data) as int / 256 == Sums(data).1
    ensures Checksum(data) as int % 256 == Sums(data).0
  {
    Split256(Sums(data).0, Sums(data).1);
  }

  lemma Split256(lo: int, hi: int)
    requires 0 <= lo < 256 && 0 <= hi
    ensures (lo + 256 * hi) % 256 == lo && (lo + 256 * hi) / 256 == hi
  {
  }

  /**
   * Bitwise `|` on non-negative integers: the lowest bit is set when either
   * operand has it, and the rest is the `|` of the remaining bits.
   */
  function BitOr(a: nat, b: nat): nat
    decreases a + b
  {
    if a == 0 then b
    else if b == 0 then a
    else 2 * BitOr(a / 2, b / 2) + (if a % 2 == 1 || b % 2 == 1 then 1 else 0)
  }

  function Pow2(k: nat): (p: nat)
    ensures p >= 1
  {
    if k == 0 then 1 else 2 * Pow2(k - 1)
  }

  /** `m << k` has no bits below `k`, so or-ing in a smaller `lo` adds it. */
  lemma {:induction false} BitOrDisjoint(m: nat, lo: nat, k: nat)
    requires lo < Pow2(k)
    ensures BitOr(m * Pow2(k), lo) == m * Pow2(k) + lo
    decreases k
  {
    if k > 0 && m * Pow2(k) != 0 && lo != 0 {
      var p := Pow2(k - 1);
      assert m * Pow2(k) == 2 * (m * p);
      BitOrDisjoint(m, lo / 2, k - 1);
    }
  }

  /**
   * `(sum2 << 8) | sum1` as the source's return statement computes it: both
   * `uint16_t` operands are promoted to `int`, shifted and or-ed there, and
   * the result is truncated to `uint16_t` on return.
   */
  function ShiftOr(sum1: int, sum2: int): (r: uint16)
    requires 0 <= sum1 < 256 && 0 <= sum2 < 256
    ensures r as int == sum2 * 256 + sum1
  {
    assert Pow2(8) == 256;
    BitOrDisjoint(sum2, sum1, 8);
    (BitOr(sum2 * Pow2(8), sum1) % 0x1_0000) as uint16
  }

  /** sum1 is the plain byte sum reduced modulo 255. */
  lemma {:induction false} Sum1IsByteSumMod255(data: seq<uint8>)
    ensures Sums(data).0 == ByteSum(data) % 255
  {
    if |data| > 0 {
      var init := data[..|data| - 1];
      Sum1IsByteSumMod255(init);
      ModAddLeft(ByteSum(init), data[|data| - 1] as int);
    }
  }

  /** sum2 is the sum of all prefix byte sums reduced modulo 255. */
  lemma {:induction false} Sum2IsPrefixSumsMod255(data: seq<uint8>)
    ensures Sums(data).1 == PrefixSums(data) % 255
  {
    if |data| > 0 {
      var init := data[..|data| - 1];
      Sum2IsPrefixSumsMod255(init);
      Sum1IsByteSumMod255(data);
      ModAddBoth(PrefixSums(init), ByteSum(data));
    }
  }

  lemma ModAddLeft(a: int, b: int)
    requires 0 <= a && 0 <= b
    ensures (a % 255 + b) % 255 == (a + b) % 255
  {
  }

  lemma ModAddBoth(a: int, b: int)
    requires 0 <= a && 0 <= b
    ensures (a % 255 + b % 255) % 255 == (a + b) % 255
  {
    ModAddLeft(b, a % 255);
    ModAddLeft(a, b);
  }

  /** Over zero bytes the checksum is 0. */
  lemma ChecksumOfEmptyIsZero()
    ensures Checksum([]) == 0
  {
  }

  /**
   * The checksum loop of the sample: two 16-bit running sums reduced
   * modulo 255 after every byte, packed as (sum2 << 8) | sum1.
   */
  method Fletcher16(data: seq<uint8>) returns (r: uint16)
    ensures r == Checksum(data)
    ensures r as int / 256 == PrefixSums(data) % 255
    ensures r as int % 256 == ByteSum(data) % 255
  {
    var sum1: int := 0;
    var sum2: int := 0;
    var index := 0;
    while index < |data|
      invariant 0 <= index <= |data|
      invariant (sum1, sum2) == Sums(data[..index])
    {
      assert data[..index + 1][..index] == data[..index];
      sum1 := (sum1 + data[index] as int) % 255;
      sum2 := (sum2 + sum1) % 255;
      index := index + 1;
    }
    assert data[..index] == data;
    r := ShiftOr(sum1, sum2);
    ChecksumBytesAreSums(data);
    Sum1IsByteSumMod255(data);
    Sum2IsPrefixSumsMod255(data);
  }

  // ---------------------------------------------------------------------
  // Byte-order helpers (the sample reads and writes fields in native
  // order; the model fixes little-endian)
  // ---------------------------------------------------------------------

  function LoadU32(b: seq<uint8>): uint32
    requires |b| == 4
  {
    (b[0] as int + 0x100 * (b[1] as int + 0x100 * (b[2] as int + 0x100 * b[3] as int))) as uint32
  }

  function StoreU32(x: uint32): (b: seq<uint8>)
    ensures |b| == 4
  {
    var x1 := x as int / 0x100;
    var x2 := x1 / 0x100;
    [(x as int % 0x100) as uint8, (x1 % 0x100) as uint8, (x2 % 0x100) as uint8, (x2 / 0x100) as uint8]
  }

  function LoadU16(b: seq<uint8>): uint16
    requires |b| == 2
  {
    (b[0] as int + 0x100 * b[1] as int) as uint16
  }

  function StoreU16(x: uint16): (b: seq<uint8>)
    ensures |b| == 2
  {
    [(x as int % 0x100) as uint8, (x as int / 0x100) as uint8]
  }

  lemma LoadStoreU32(b: seq<uint8>)
    requires |b| == 4
    ensures StoreU32(LoadU32(b)) == b
  {
    var x2 := b[2] as int + 0x100 * b[3] as int;
    var x1 := b[1] as int + 0x100 * x2;
    var x := b[0] as int + 0x100 * x1;
    Split256(b[0] as int, x1);
    Split256(b[1] as int, x2);
    Split256(b[2] as int, b[3] as int);
  }

  lemma StoreLoadU16(x: uint16)
    ensures LoadU16(StoreU16(x)) == x
  {
  }

  // ---------------------------------------------------------------------
  // The data handlers
  // ---------------------------------------------------------------------

  /** The server's counters; `rqCnt` starts uninitialised, so any start value is allowed. */
  datatype Stats = Stats(recvSize: uint64, sentSize: uint64, rqCnt: uint64, connCnt: uint64)

  /** What one `event::data` callback does with a buffer. */
  datatype Outcome =
    | Rejected                                          // `unref()` and return, nothing written
    | Accepted(write: Option<seq<uint8>>, stats: Stats) // bytes written (if any), new counters

  /**
   * The default handler. The first byte must equal the buffer's length;
   * the second is the number of bytes asked for, each reply byte carrying
   * that same number.
   */
  function HandleData(buffer: seq<uint8>, stats: Stats): (r: Outcome)
    ensures r.Accepted? <==> 2 <= |buffer| && buffer[0] as int == |buffer|
    ensures r.Accepted? ==>
      var requestedSz := buffer[1] as int;
      && (r.write.None? <==> requestedSz == 0)
      && (r.write.Some? ==> |r.write.value| == requestedSz
                            && forall i :: 0 <= i < |r.write.value| ==> r.write.value[i] as int == requestedSz)
      && r.stats.recvSize as int == (stats.recvSize as int + |buffer|) % TWO_TO_THE_64
      && r.stats.sentSize as int == (stats.sentSize as int + requestedSz) % TWO_TO_THE_64
      && r.stats.rqCnt as int == (stats.rqCnt as int + 1) % TWO_TO_THE_64
      && r.stats.connCnt == stats.connCnt
  {
    if |buffer| < 2 then Rejected
    else
      var receivedSz := buffer[0] as int;
      if receivedSz != |buffer| then Rejected
      else
        var requestedSz := buffer[1];
        var write := if requestedSz != 0 then Some(seq(requestedSz as int, _ => requestedSz)) else None;
        Accepted(write, stats.(recvSize := AddWrap(stats.recvSize, receivedSz),
                               sentSize := AddWrap(stats.sentSize, requestedSz as int),
                               rqCnt := AddWrap(stats.rqCnt, 1)))
  }

  /** A well-formed request as a client of the sample builds it: length, size asked for, padding. */
  function MakeRequest(requestedSz: uint8, padding: seq<uint8>): (b: seq<uint8>)
    requires 2 + |padding| < 0x100
    ensures |b| == 2 + |padding|
  {
    [(2 + |padding|) as uint8, requestedSz] + padding
  }

  /** Every request built by `MakeRequest` is served with exactly the bytes asked for. */
  lemma WellFormedRequestIsServed(requestedSz: uint8, padding: seq<uint8>, stats: Stats)
    requires 2 + |padding| < 0x100
    ensures var r := HandleData(MakeRequest(requestedSz, padding), stats);
      && r.Accepted?
      && (requestedSz != 0 ==> r.write == Some(seq(requestedSz as int, _ => requestedSz)))
  {
    var r := HandleData(MakeRequest(requestedSz, padding), stats);
    if requestedSz != 0 {
      assert r.write.Some?;
      assert r.write.value == seq(requestedSz as int, _ => requestedSz);
    }
  }

  /** Feeds the buffers of one connection in order, as the event loop would. */
  function ServeAll(buffers: seq<seq<uint8>>, stats: Stats): Stats
  {
    if |buffers| == 0 then stats
    else
      var next := match HandleData(buffers[0], stats)
        case Rejected => stats
        case Accepted(_, s) => s;
      ServeAll(buffers[1..], next)
  }

  function CountAccepted(buffers: seq<seq<uint8>>): nat
  {
    if |buffers| == 0 then 0
    else (if 2 <= |buffers[0]| && buffers[0][0] as int == |buffers[0]| then 1 else 0) + CountAccepted(buffers[1..])
  }

  lemma WrapAddLeft(a: int, b: int)
    requires 0 <= a && 0 <= b
    ensures (a % TWO_TO_THE_64 + b) % TWO_TO_THE_64 == (a + b) % TWO_TO_THE_64
  {
  }

  /** Over a whole connection, `rqCnt` counts exactly the accepted requests (modulo 2^64). */
  lemma {:induction false} RequestCountCountsAccepted(buffers: seq<seq<uint8>>, stats: Stats)
    ensures ServeAll(buffers, stats).rqCnt as int == (stats.rqCnt as int + CountAccepted(buffers)) % TWO_TO_THE_64
    ensures ServeAll(buffers, stats).connCnt == stats.connCnt
  {
    if |buffers| > 0 {
      var r := HandleData(buffers[0], stats);
      var next := match r case Rejected => stats case Accepted(_, s) => s;
      var one := if r.Accepted? then 1 else 0;
      assert next.rqCnt as int == (stats.rqCnt as int + one) % TWO_TO_THE_64;
      RequestCountCountsAccepted(buffers[1..], next);
      WrapAddLeft(stats.rqCnt as int + one, CountAccepted(buffers[1..]));
    }
  }

  /**
   * The DO_INTEGRITY_CHECKING handler. A request is at least 10 bytes:
   * length, size asked for, a 4-byte client id (0 or this connection's id)
   * and a 4-byte packet number. The reply is the Fletcher-16 checksum of
   * everything after it, the size asked for, the connection's id, the
   * packet number echoed, and the requested filler bytes.
   */
  function HandleDataChecked(buffer: seq<uint8>, stats: Stats, clientID: uint32): (r: Outcome)
    ensures r.Accepted? <==>
      && 10 <= |buffer|
      && buffer[0] as int == |buffer|
      && (LoadU32(buffer[2..6]) == 0 || LoadU32(buffer[2..6]) == clientID)
    ensures r.Accepted? ==>
      var requestedSz := buffer[1] as int;
      && r.write.Some?
      && |r.write.value| == requestedSz + 11
      && r.write.value[2] as int == requestedSz
      && r.write.value[3..7] == StoreU32(clientID)
      && r.write.value[7..11] == buffer[6..10]
      && (forall i :: 11 <= i < |r.write.value| ==> r.write.value[i] as int == requestedSz)
      && LoadU16(r.write.value[..2]) == Checksum(r.write.value[2..])
      && |r.write.value[2..]| == requestedSz + 9
      && r.stats.recvSize as int == (stats.recvSize as int + |buffer|) % TWO_TO_THE_64
      && r.stats.sentSize as int == (stats.sentSize as int + requestedSz + 9) % TWO_TO_THE_64
      && r.stats.rqCnt as int == (stats.rqCnt as int + 1) % TWO_TO_THE_64
      && r.stats.connCnt == stats.connCnt
  {
    if |buffer| < 10 then Rejected
    else
      var receivedSz := buffer[0] as int;
      if receivedSz != |buffer| then Rejected
      else
        var requestedSz := buffer[1];
        var receivedID := LoadU32(buffer[2..6]);
        if !(receivedID == 0 || receivedID == clientID) then Rejected
        else
          var reply := CheckedReply(requestedSz, clientID, buffer[6..10]);
          Accepted(Some(reply),
                   stats.(recvSize := AddWrap(stats.recvSize, receivedSz),
                          sentSize := AddWrap(stats.sentSize, requestedSz as int + 9),
                          rqCnt := AddWrap(stats.rqCnt, 1)))
  }

  /**
   * The packet number is read as a native `uint32_t` and written back the
   * same way, which reproduces the four bytes whatever the byte order.
   */
  function LoadStoreEcho(b: seq<uint8>): (r: seq<uint8>)
    requires |b| == 4
    ensures r == b
  {
    LoadStoreU32(b);
    StoreU32(LoadU32(b))
  }

  /**
   * The reply to an accepted checked request: the checksum of the rest, the
   * size asked for, the connection's id, the packet number echoed and the
   * filler bytes.
   */
  function CheckedReply(requestedSz: uint8, clientID: uint32, packet: seq<uint8>): (reply: seq<uint8>)
    requires |packet| == 4
    ensures |reply| == requestedSz as int + 11
    ensures reply[2] == requestedSz
    ensures reply[3..7] == StoreU32(clientID)
    ensures reply[7..11] == packet
    ensures forall i :: 11 <= i < |reply| ==> reply[i] == requestedSz
    ensures LoadU16(reply[..2]) == Checksum(reply[2..])
  {
    var filler := seq(requestedSz as int, _ => requestedSz);
    var body := [requestedSz] + StoreU32(clientID) + LoadStoreEcho(packet) + filler;
    var reply := StoreU16(Checksum(body)) + body;
    ReplyLayout(reply, body, Checksum(body));
    assert reply[3..7] == body[1..5];
    assert reply[7..11] == body[5..9] == packet;
    assert forall i :: 11 <= i < |reply| ==> reply[i] == filler[i - 11];
    reply
  }

  lemma ReplyLayout(reply: seq<uint8>, body: seq<uint8>, sum: uint16)
    requires reply == StoreU16(sum) + body
    ensures reply[2..] == body
    ensures LoadU16(reply[..2]) == sum
  {
    assert reply[..2] == StoreU16(sum);
    StoreLoadU16(sum);
  }

  /** What a client checks on a reply: length, size and checksum. */
  predicate ReplyVerifies(reply: seq<uint8>, requestedSz: uint8)
  {
    && |reply| == requestedSz as int + 11
    && reply[2] == requestedSz
    && LoadU16(reply[..2]) == Checksum(reply[2..])
  }

  /** Every accepted request is answered with a reply that passes the client's check. */
  lemma CheckedReplyVerifies(buffer: seq<uint8>, stats: Stats, clientID: uint32)
    requires HandleDataChecked(buffer, stats, clientID).Accepted?
    ensures ReplyVerifies(HandleDataChecked(buffer, stats, clientID).write.value, buffer[1])
  {
  }
}

/**
 The framing of the runner's socket protocol: one type byte, three length bytes, the payload. The read and
 write loops are proved over connections that deliver and accept bytes in arbitrary pieces.
 */
module Wire {
  import opened Wrappers

  type byte = x: int | 0 <= x < 0x100
  type bytes = seq<byte>

  const HEADER_LEN := 4
  const MAX_DATA_SIZE := 2 * 0x100_0000 - 1

  const RPC_ERROR: byte := 0
  const RPC_PREPARE_CONF: byte := 1
  const RPC_HTTP_REQ_CALL: byte := 2
  const RPC_EXTRA_INFO: byte := 3
  const RPC_HTTP_RESP_CALL: byte := 4

  /** The sizes three length bytes can carry. */
  const LENGTH_SPACE := 0x100_0000

  // ----- Frames -----

  datatype Frame = Frame(ty: byte, payload: bytes)

  /** Big-endian, of the lower 32 bits of `n`. */
  function PutUint32(n: nat): (b: bytes)
    ensures |b| == HEADER_LEN
  {
    [n / 0x100_0000 % 0x100, n / 0x1_0000 % 0x100, n / 0x100 % 0x100, n % 0x100]
  }

  function GetUint32(b: bytes): nat
    requires |b| == HEADER_LEN
  {
    b[0] as int * 0x100_0000 + b[1] as int * 0x1_0000 + b[2] as int * 0x100 + b[3] as int
  }

  /** The size goes into all four bytes and the type then overwrites the first. */
  function Header(ty: byte, size: nat): (h: bytes)
    ensures |h| == HEADER_LEN
  {
    PutUint32(size)[0 := ty]
  }

  /** The length is read back with the first byte taken as zero. */
  function LengthOf(header: bytes): (length: nat)
    requires |header| == HEADER_LEN
    ensures length < LENGTH_SPACE
  {
    GetUint32(header[0 := 0])
  }

  lemma Remainder16(q: nat, low: nat)
    requires low < 0x1_0000
    ensures (q * 0x1_0000 + low) % 0x1_0000 == low
  {}

  lemma Remainder24(q: nat, low: nat)
    requires low < 0x100_0000
    ensures (q * 0x100_0000 + low) % 0x100_0000 == low
  {}

  lemma LowTwoBytes(n: nat)
    ensures n % 0x1_0000 == n / 0x100 % 0x100 * 0x100 + n % 0x100
  {
    var q, r := n / 0x100, n % 0x100;
    assert n == q * 0x100 + r && q == q / 0x100 * 0x100 + q % 0x100;
    Remainder16(q / 0x100, q % 0x100 * 0x100 + r);
  }

  lemma LowThreeBytes(n: nat)
    ensures n % 0x100_0000 == n / 0x1_0000 % 0x100 * 0x1_0000 + n % 0x1_0000
  {
    var q, r := n / 0x1_0000, n % 0x1_0000;
    assert n == q * 0x1_0000 + r && q == q / 0x100 * 0x100 + q % 0x100;
    Remainder24(q / 0x100, q % 0x100 * 0x1_0000 + r);
  }

  lemma LengthSurvives(ty: byte, size: nat)
    ensures LengthOf(Header(ty, size)) == size % LENGTH_SPACE
  {
    var h := Header(ty, size)[0 := 0];
    assert h[1] as int == size / 0x1_0000 % 0x100 && h[2] as int == size / 0x100 % 0x100 && h[3] as int == size % 0x100;
    LowTwoBytes(size);
    LowThreeBytes(size);
  }

  lemma HeaderOfLength(header: bytes)
    requires |header| == HEADER_LEN
    ensures Header(header[0], LengthOf(header)) == header
  {
    var n := LengthOf(header);
    assert n / 0x1_0000 == header[1] && n / 0x100 == header[1] as int * 0x100 + header[2] as int;
  }

  /** Which byte holds what: the type, and then the length from its highest byte to its lowest. */
  lemma HeaderBytes(ty: byte, size: nat)
    ensures var h := Header(ty, size);
      |h| == 4 && h[0] == ty && h[1] == size / 65536 % 256 && h[2] == size / 256 % 256 && h[3] == size % 256
  {}

  lemma LengthFromBytes(header: bytes)
    requires |header| == HEADER_LEN
    ensures LengthOf(header) == header[1] as int * 65536 + header[2] as int * 256 + header[3] as int
  {}

  function Encode(f: Frame): bytes {
    Header(f.ty, |f.payload|) + f.payload
  }

  function EncodeAll(fs: seq<Frame>): bytes {
    if fs == [] then [] else EncodeAll(fs[..|fs| - 1]) + Encode(fs[|fs| - 1])
  }

  lemma EncodeAppend(fs: seq<Frame>, f: Frame)
    ensures EncodeAll(fs + [f]) == EncodeAll(fs) + Encode(f)
  {
    assert (fs + [f])[..|fs|] == fs;
  }

  lemma ConcatAssociative(x: bytes, y: bytes, z: bytes)
    ensures (x + y) + z == x + (y + z)
  {}

  lemma {:induction false} EncodeConcat(a: seq<Frame>, b: seq<Frame>)
    ensures EncodeAll(a + b) == EncodeAll(a) + EncodeAll(b)
  {
    if b == [] {
      assert a + b == a;
    } else {
      var b0, f := b[..|b| - 1], b[|b| - 1];
      calc {
        EncodeAll(a + b);
      == { assert a + b == a + b0 + [f]; }
        EncodeAll(a + b0 + [f]);
      == { EncodeAppend(a + b0, f); }
        EncodeAll(a + b0) + Encode(f);
      == { EncodeConcat(a, b0); }
        (EncodeAll(a) + EncodeAll(b0)) + Encode(f);
      == { ConcatAssociative(EncodeAll(a), EncodeAll(b0), Encode(f)); }
        EncodeAll(a) + (EncodeAll(b0) + Encode(f));
      }
    }
  }

  lemma EncodeFirst(fs: seq<Frame>)
    requires fs != []
    ensures EncodeAll(fs) == Encode(fs[0]) + EncodeAll(fs[1..])
  {
    EncodeConcat([fs[0]], fs[1..]);
    EncodeAppend([], fs[0]);
    assert [fs[0]] + fs[1..] == fs && [] + [fs[0]] == [fs[0]];
  }

  /** The first frame of a byte stream and what follows it, once enough bytes are there. */
  function DecodeOne(stream: bytes): Option<(Frame, bytes)> {
    if |stream| < HEADER_LEN then None else
      var end := HEADER_LEN + LengthOf(stream[..HEADER_LEN]);
      if |stream| < end then None else Some((Frame(stream[0], stream[HEADER_LEN..end]), stream[end..]))
  }

  /** All complete frames of a byte stream, and the incomplete rest. */
  function DecodeAll(stream: bytes): (seq<Frame>, bytes)
    decreases |stream|
  {
    match DecodeOne(stream)
    case None => ([], stream)
    case Some((f, rest)) => var (fs, tail) := DecodeAll(rest); ([f] + fs, tail)
  }

  predicate Fits(f: Frame) {
    |f.payload| < LENGTH_SPACE
  }

  predicate AllFit(fs: seq<Frame>) {
    forall i :: 0 <= i < |fs| ==> Fits(fs[i])
  }

  /** A frame survives the wire exactly when its payload is shorter than 2^24 bytes. */
  lemma RoundTripIff(f: Frame, rest: bytes)
    ensures DecodeOne(Encode(f) + rest) == Some((f, rest)) <==> Fits(f)
  {
    var stream := Encode(f) + rest;
    assert stream[..HEADER_LEN] == Header(f.ty, |f.payload|);
    LengthSurvives(f.ty, |f.payload|);
    if Fits(f) {
      assert stream[HEADER_LEN..HEADER_LEN + |f.payload|] == f.payload;
      assert stream[HEADER_LEN + |f.payload|..] == rest;
    }
  }

  lemma DecodeAllStep(f: Frame, rest: bytes, more: seq<Frame>, tail: bytes)
    requires Fits(f) && DecodeAll(rest) == (more, tail)
    ensures DecodeAll(Encode(f) + rest) == ([f] + more, tail)
  {
    RoundTripIff(f, rest);
  }

  lemma EncodeSplit(fs: seq<Frame>, rest: bytes)
    requires fs != []
    ensures EncodeAll(fs) + rest == Encode(fs[0]) + (EncodeAll(fs[1..]) + rest)
  {
    EncodeFirst(fs);
    var x, y := Encode(fs[0]), EncodeAll(fs[1..]);
    assert (x + y) + rest == x + (y + rest);
  }

  /** Any sequence of frames that fit is recovered exactly from the concatenation of their encodings. */
  lemma {:induction false} StreamFidelity(fs: seq<Frame>, rest: bytes, more: seq<Frame>, tail: bytes)
    requires AllFit(fs) && DecodeAll(rest) == (more, tail)
    ensures DecodeAll(EncodeAll(fs) + rest) == (fs + more, tail)
  {
    if fs == [] {
      assert EncodeAll(fs) + rest == rest && fs + more == more;
    } else {
      var f, later := fs[0], fs[1..];
      var x := EncodeAll(later) + rest;
      calc {
        DecodeAll(EncodeAll(fs) + rest);
      == { EncodeSplit(fs, rest); }
        DecodeAll(Encode(f) + x);
      == { StreamFidelity(later, rest, more, tail); DecodeAllStep(f, x, later + more, tail); }
        ([f] + (later + more), tail);
      == { assert [f] + (later + more) == fs + more; }
        (fs + more, tail);
      }
    }
  }

  /** A receiver that has read the encodings of `got` off a stream of `sent` has got the first frames sent. */
  lemma ReceivedArePrefix(got: seq<Frame>, sent: seq<Frame>)
    requires AllFit(got) && AllFit(sent) && EncodeAll(got) <= EncodeAll(sent)
    ensures got <= sent
  {
    var stream := EncodeAll(sent);
    var rest := stream[|EncodeAll(got)|..];
    var (more, tail) := DecodeAll(rest);
    assert stream == EncodeAll(got) + rest && stream == EncodeAll(sent) + [];
    StreamFidelity(got, rest, more, tail);
    StreamFidelity(sent, [], [], []);
    assert sent == sent + [] == got + more;
  }

  // ----- Connections -----

  datatype NetError = EOF | Broken

  /** How one Read or Write call turns out: how many bytes it could move at most, and its error. */
  datatype Transfer = Transfer(limit: nat, error: Option<NetError>)

  function Min(a: nat, b: nat): nat {
    if a < b then a else b
  }

  /** Every call moves at least a byte when it can, and none fails. */
  predicate Flowing(ts: seq<Transfer>) {
    forall i :: 0 <= i < |ts| ==> ts[i].limit > 0 && ts[i].error.None?
  }

  /** Errors last: once a call has failed, so do all later ones. */
  predicate Sticky(ts: seq<Transfer>) {
    forall i, j :: 0 <= i < j < |ts| && ts[i].error.Some? ==> ts[j].error.Some?
  }

  predicate Failing(ts: seq<Transfer>) {
    forall i :: 0 <= i < |ts| ==> ts[i].error.Some?
  }

  /** What lasting errors mean for an operation that makes at least one call. */
  predicate Lasts(before: seq<Transfer>, after: seq<Transfer>, failed: bool) {
    && (Sticky(before) ==> Sticky(after) && (failed ==> Failing(after)))
    && (Failing(before) ==> failed && Failing(after))
  }

  /** A socket. `incoming` is what the peer sent and the runner has not read; `outgoing` what the runner wrote.
      `readScript` and `writeScript` say how the calls to come turn out; after the last one the connection is closed. */
  class Conn {
    var incoming: bytes
    var outgoing: bytes
    var readScript: seq<Transfer>
    var writeScript: seq<Transfer>

    constructor (incoming: bytes, readScript: seq<Transfer>, writeScript: seq<Transfer>)
      ensures this.incoming == incoming && this.outgoing == [] && this.readScript == readScript &&
        this.writeScript == writeScript
    {
      this.incoming, this.outgoing, this.readScript, this.writeScript := incoming, [], readScript, writeScript;
    }

    /** Reads into `b[from..]`. */
    method Read(b: array<byte>, from: nat) returns (n: nat, err: Option<NetError>)
      requires from <= b.Length
      modifies this`incoming, this`readScript, b
      ensures n <= b.Length - from && n <= |old(incoming)|
      ensures b[..from] == old(b[..from]) && b[from..from + n] == old(incoming)[..n]
      ensures b[from + n..] == old(b[from + n..])
      ensures incoming == old(incoming)[n..]
      ensures if old(readScript) == [] then err == Some(EOF) && n == 0 && readScript == [] else
                readScript == old(readScript)[1..] && err == old(readScript)[0].error &&
                n == Min(old(readScript)[0].limit, Min(b.Length - from, |old(incoming)|))
      ensures Lasts(old(readScript), readScript, err.Some?)
    {
      if readScript == [] { return 0, Some(EOF); }
      n := Min(readScript[0].limit, Min(b.Length - from, |incoming|));
      err := readScript[0].error;
      forall i | from <= i < from + n {
        b[i] := incoming[i - from];
      }
      incoming := incoming[n..];
      readScript := readScript[1..];
    }

    /** Writes from `b[from..]`. */
    method Write(b: bytes, from: nat) returns (n: nat, err: Option<NetError>)
      requires from <= |b|
      modifies this`outgoing, this`writeScript
      ensures n <= |b| - from && outgoing == old(outgoing) + b[from..from + n]
      ensures if old(writeScript) == [] then err == Some(Broken) && n == 0 && writeScript == [] else
                writeScript == old(writeScript)[1..] && err == old(writeScript)[0].error &&
                n == Min(old(writeScript)[0].limit, |b| - from)
      ensures Lasts(old(writeScript), writeScript, err.Some?)
    {
      if writeScript == [] {
        assert outgoing == outgoing + b[from..from];
        return 0, Some(Broken);
      }
      n := Min(writeScript[0].limit, |b| - from);
      err := writeScript[0].error;
      outgoing := outgoing + b[from..from + n];
      writeScript := writeScript[1..];
    }
  }

  // ----- The loops of msg.go -----

  lemma PrefixGrows(s: bytes, l: nat, n: nat)
    requires l + n <= |s|
    ensures s[..l] + s[l..][..n] == s[..l + n] && s[l..][n..] == s[l + n..]
  {}

  /** `ReadBytes`: whatever the pieces, the buffer holds the next bytes of the stream, in order, and the
      stream has moved by exactly as many. */
  method ReadBytes(c: Conn, b: array<byte>, n: nat) returns (got: nat, err: Option<NetError>)
    requires n <= b.Length
    modifies c`incoming, c`readScript, b
    ensures got <= b.Length && got <= |old(c.incoming)|
    ensures b[..got] == old(c.incoming)[..got] && c.incoming == old(c.incoming)[got..]
    ensures err.None? ==> got >= n
    ensures |c.readScript| <= |old(c.readScript)| && (n > 0 && err.None? ==> |c.readScript| < |old(c.readScript)|)
    ensures Flowing(old(c.readScript)) ==> Flowing(c.readScript)
    ensures Flowing(old(c.readScript)) && n <= |old(c.incoming)| && |old(c.readScript)| >= n ==>
              err.None? && |c.readScript| >= |old(c.readScript)| - n
    ensures Flowing(old(c.readScript)) && err.Some? ==> c.readScript == []
    ensures n > 0 ==> Lasts(old(c.readScript), c.readScript, err.Some?)
    ensures n == 0 ==> c.readScript == old(c.readScript) && err.None?
  {
    ghost var stream := c.incoming;
    var l: nat := 0;
    while l < n
      invariant l <= b.Length && l <= |stream|
      invariant b[..l] == stream[..l] && c.incoming == stream[l..]
      invariant |c.readScript| <= |old(c.readScript)| && (l > 0 ==> |c.readScript| < |old(c.readScript)|)
      invariant Flowing(old(c.readScript)) ==> Flowing(c.readScript)
      invariant Flowing(old(c.readScript)) && n <= |old(c.incoming)| ==>
        |c.readScript| + Min(l, n) >= |old(c.readScript)|
      invariant Sticky(old(c.readScript)) ==> Sticky(c.readScript)
      invariant Failing(old(c.readScript)) || n == 0 ==> l == 0 && c.readScript == old(c.readScript)
      decreases |c.readScript|
    {
      var tmp, e := c.Read(b, l);
      PrefixGrows(stream, l, tmp);
      assert b[..l + tmp] == b[..l] + b[l..l + tmp];
      if e.Some? {
        return l + tmp, e;
      }
      l := l + tmp;
    }
    return l, None;
  }

  /** `WriteBytes`: whatever the pieces, what leaves is the next bytes of the buffer, in order; all of them
      unless an error is reported. */
  method WriteBytes(c: Conn, b: bytes) returns (sent: nat, err: Option<NetError>)
    modifies c`outgoing, c`writeScript
    ensures sent <= |b| && c.outgoing == old(c.outgoing) + b[..sent]
    ensures err.None? ==> sent == |b|
    ensures |c.writeScript| <= |old(c.writeScript)|
    ensures b != [] ==> Lasts(old(c.writeScript), c.writeScript, err.Some?)
    ensures b == [] ==> c.writeScript == old(c.writeScript) && err.None?
  {
    var l: nat := 0;
    while l < |b|
      invariant l <= |b| && c.outgoing == old(c.outgoing) + b[..l]
      invariant |c.writeScript| <= |old(c.writeScript)|
      invariant Sticky(old(c.writeScript)) ==> Sticky(c.writeScript)
      invariant Failing(old(c.writeScript)) || b == [] ==> l == 0 && c.writeScript == old(c.writeScript)
      decreases |c.writeScript|
    {
      var tmp, e := c.Write(b, l);
      assert b[..l] + b[l..l + tmp] == b[..l + tmp];
      if e.Some? {
        return l + tmp, e;
      }
      l := l + tmp;
    }
    return l, None;
  }

  /** `ReadErr`: a read failed if it reported an error or got some but not all of the bytes asked for. */
  function ReadErr(n: nat, err: Option<NetError>, required: nat): bool {
    err.Some? || 0 < n < required
  }
}

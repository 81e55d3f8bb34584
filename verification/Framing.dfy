/** The wire format of fleetspeak/src/client/channel/channel.go: a stream is a magic number followed,
    for every message, by a little-endian size, the serialized message and another magic number.

    A message is represented by its serialized bytes; `parses` stands for the success of the
    protobuf decoder on a byte string.
 */
module Framing {
  import opened Options

  type Byte = x: int | 0 <= x < 256
  type Bytes = seq<Byte>

  const MAGIC: int := 0xf1ee1001
  const MAX_SIZE: int := 2 * 1024 * 1024

  datatype ReadError = ShortMagic | BadMagic | ShortSize | BadSize | ShortMessage | BadMessage
  datatype ReadResult = ReadResult(msgs: seq<Bytes>, err: Option<ReadError>)

  function Le32(n: int): (b: Bytes)
    requires 0 <= n < 0x1_0000_0000
    ensures |b| == 4
  {
    [n % 256, n / 256 % 256, n / 65536 % 256, n / 16777216]
  }

  function FromLe32(b: Bytes): (n: int)
    requires |b| == 4
    ensures 0 <= n < 0x1_0000_0000
  {
    var b0: int, b1: int, b2: int, b3: int := b[0], b[1], b[2], b[3];
    b0 + 256 * b1 + 65536 * b2 + 16777216 * b3
  }

  /** The least significant byte comes first. */
  lemma LeastFirst(n: int)
    requires 0 <= n < 0x1_0000_0000
    ensures var b := Le32(n);
            b[0] == n % 256 && b[1] == n / 256 % 256 && b[2] == n / 65536 % 256 && b[3] == n / 16777216
  {
  }

  lemma Le32Inverse(n: int)
    requires 0 <= n < 0x1_0000_0000
    ensures FromLe32(Le32(n)) == n
  {
    assert n / 65536 == (n / 256) / 256;
    assert n / 16777216 == (n / 65536) / 256;
  }

  lemma FromLe32Inverse(b: Bytes)
    requires |b| == 4
    ensures Le32(FromLe32(b)) == b
  {
    var n := FromLe32(b);
    var b0: int, b1: int, b2: int, b3: int := b[0], b[1], b[2], b[3];
    assert n == b0 + 256 * (b1 + 256 * b2 + 65536 * b3);
    assert n / 256 == b1 + 256 * (b2 + 256 * b3);
    assert n / 65536 == b2 + 256 * b3;
  }

  // ---------------------------------------------------------------- writer

  predicate Fits(m: Bytes) {
    |m| <= MAX_SIZE
  }

  /** The bytes written for one message, after the magic number that precedes it. */
  function Frame(m: Bytes): Bytes
    requires Fits(m)
  {
    Le32(|m|) + m + Le32(MAGIC)
  }

  function Frames(ms: seq<Bytes>): Bytes
    requires forall m <- ms :: Fits(m)
  {
    if ms == [] then [] else Frame(ms[0]) + Frames(ms[1..])
  }

  /** A complete, orderly stream: it begins and ends with the magic number. */
  function Stream(ms: seq<Bytes>): Bytes
    requires forall m <- ms :: Fits(m)
  {
    Le32(MAGIC) + Frames(ms)
  }

  /** Overlarge messages are logged and skipped by the writer. */
  function Sendable(ms: seq<Bytes>): (r: seq<Bytes>)
    ensures forall m <- r :: Fits(m) && m in ms
  {
    if ms == [] then []
    else if Fits(ms[0]) then [ms[0]] + Sendable(ms[1..])
    else Sendable(ms[1..])
  }

  lemma StreamAppend(ms: seq<Bytes>, m: Bytes)
    requires Fits(m) && forall x <- ms :: Fits(x)
    ensures Stream(ms + [m]) == Stream(ms) + Le32(|m|) + m + Le32(MAGIC)
  {
    FramesAppend(ms, m);
  }

  lemma {:induction false} FramesAppend(ms: seq<Bytes>, m: Bytes)
    requires Fits(m) && forall x <- ms :: Fits(x)
    ensures Frames(ms + [m]) == Frames(ms) + Frame(m)
  {
    if ms == [] {
      assert [m][1..] == [];
    } else {
      FramesAppend(ms[1..], m);
      assert (ms + [m])[1..] == ms[1..] + [m];
    }
  }

  lemma {:induction false} SendableAppend(ms: seq<Bytes>, m: Bytes)
    ensures Sendable(ms + [m]) == Sendable(ms) + (if Fits(m) then [m] else [])
  {
    if ms != [] {
      SendableAppend(ms[1..], m);
      assert (ms + [m])[1..] == ms[1..] + [m];
    }
  }

  /** channel.go `writeLoop`: what reaches the pipe when no write fails. */
  method WriteLoop(ms: seq<Bytes>) returns (pipe: Bytes)
    ensures pipe == Stream(Sendable(ms))
  {
    pipe := Le32(MAGIC);
    for i := 0 to |ms|
      invariant pipe == Stream(Sendable(ms[..i]))
    {
      var buf := ms[i];
      assert ms[..i + 1] == ms[..i] + [buf];
      SendableAppend(ms[..i], buf);
      if |buf| > MAX_SIZE {
        assert Sendable(ms[..i]) + [] == Sendable(ms[..i]);
        continue;
      }
      StreamAppend(Sendable(ms[..i]), buf);
      pipe := pipe + Le32(|buf|);
      pipe := pipe + buf;
      pipe := pipe + Le32(MAGIC);
    }
    assert ms[..|ms|] == ms;
  }

  // ---------------------------------------------------------------- reader

  /** One turn of the reader: it stops, with or without an error, or yields a message. */
  datatype Turn = Stop(err: Option<ReadError>) | Got(msg: Bytes, rest: Bytes)

  function ReadOne(b: Bytes, parses: Bytes -> bool): (t: Turn)
    ensures t.Got? ==> |t.rest| < |b|
  {
    if |b| < 4 then Stop(Some(ShortMagic))
    else if FromLe32(b[..4]) != MAGIC then Stop(Some(BadMagic))
    else if |b| == 4 then Stop(None)
    else if |b| < 8 then Stop(Some(ShortSize))
    else
      var n := FromLe32(b[4..8]);
      if n > MAX_SIZE then Stop(Some(BadSize))
      else if |b| < 8 + n then Stop(Some(ShortMessage))
      else if !parses(b[8..8 + n]) then Stop(Some(BadMessage))
      else Got(b[8..8 + n], b[8 + n..])
  }

  /** What the reader yields from byte string `b`, and the error it reports at the end, if any. */
  function Read(b: Bytes, parses: Bytes -> bool): ReadResult
    decreases |b|
  {
    match ReadOne(b, parses)
    case Stop(err) => ReadResult([], err)
    case Got(m, rest) => var r := Read(rest, parses); ReadResult([m] + r.msgs, r.err)
  }

  /** A turn that yields a message consumed exactly a magic number and that message's size and
      bytes; a turn that stops without an error consumed exactly a magic number. */
  lemma ReadOneSound(b: Bytes, parses: Bytes -> bool)
    ensures match ReadOne(b, parses)
            case Stop(err) => err == None <==> b == Le32(MAGIC)
            case Got(m, rest) => Fits(m) && parses(m) && b == Le32(MAGIC) + Le32(|m|) + m + rest
  {
    if |b| >= 4 {
      Le32Inverse(MAGIC);
      FromLe32Inverse(b[..4]);
      if ReadOne(b, parses).Got? {
        FromLe32Inverse(b[4..8]);
        var m, rest := ReadOne(b, parses).msg, ReadOne(b, parses).rest;
        assert b == b[..4] + b[4..8] + m + rest;
      } else if |b| == 4 {
        assert b == b[..4];
      }
    }
  }

  lemma ReadOneComplete(m: Bytes, rest: Bytes, parses: Bytes -> bool)
    requires Fits(m) && parses(m)
    ensures ReadOne(Le32(MAGIC) + Le32(|m|) + m + rest, parses) == Got(m, rest)
  {
    var b := Le32(MAGIC) + Le32(|m|) + m + rest;
    Le32Inverse(MAGIC);
    Le32Inverse(|m|);
    assert b[..4] == Le32(MAGIC);
    assert b[4..8] == Le32(|m|);
    assert b[8..8 + |m|] == m;
    assert b[8 + |m|..] == rest;
  }

  /** channel.go `readLoop` over the whole pipe contents. `magicOk` is the value sent on the
      `magicRead` channel that lets the write loop start. */
  method ReadLoop(pipe: Bytes, parses: Bytes -> bool)
      returns (msgs: seq<Bytes>, err: Option<ReadError>, magicOk: bool)
    ensures ReadResult(msgs, err) == Read(pipe, parses)
    ensures magicOk <==> Le32(MAGIC) <= pipe
  {
    hide ReadOne, Read, Le32, FromLe32;
    msgs, err, magicOk := [], None, false;
    var pos := 0;
    ghost var b := pipe; // what is still in the pipe
    ghost var good := Le32(MAGIC) <= pipe;
    while true
      invariant 0 <= pos <= |pipe| && b == pipe[pos..]
      invariant Prepend(msgs, Read(b, parses)) == Read(pipe, parses)
      invariant good == (Le32(MAGIC) <= pipe)
      invariant if pos == 0 then !magicOk && b == pipe else magicOk && good
      decreases |b|
    {
      var m, e, stop, seen := ReadTurn(pipe, pos, parses);
      magicOk := magicOk || seen;
      if stop {
        PrependStop(msgs, b, e, parses);
        err := e;
        return;
      }
      PrependStep(msgs, b, m, pipe[pos + 8 + |m|..], parses);
      msgs := msgs + [m];
      pos := pos + 8 + |m|;
      b := pipe[pos..];
    }
  }

  function Prepend(ms: seq<Bytes>, r: ReadResult): ReadResult {
    ReadResult(ms + r.msgs, r.err)
  }

  lemma PrependStep(ms: seq<Bytes>, b: Bytes, m: Bytes, rest: Bytes, parses: Bytes -> bool)
    requires ReadOne(b, parses) == Got(m, rest)
    ensures Prepend(ms, Read(b, parses)) == Prepend(ms + [m], Read(rest, parses))
  {
    var r := Read(rest, parses);
    assert ms + ([m] + r.msgs) == ms + [m] + r.msgs;
  }

  lemma PrependStop(ms: seq<Bytes>, b: Bytes, err: Option<ReadError>, parses: Bytes -> bool)
    requires ReadOne(b, parses) == Stop(err)
    ensures Prepend(ms, Read(b, parses)) == ReadResult(ms, err)
  {
  }

  /** One turn of `readLoop`, at offset `pos` of the pipe; `seen` says the magic number was good. */
  method ReadTurn(pipe: Bytes, pos: nat, parses: Bytes -> bool)
      returns (m: Bytes, err: Option<ReadError>, stop: bool, seen: bool)
    requires pos <= |pipe|
    ensures seen <==> Le32(MAGIC) <= pipe[pos..]
    ensures stop ==> ReadOne(pipe[pos..], parses) == Stop(err)
    ensures !stop ==> seen && pos + 8 + |m| <= |pipe|
    ensures !stop ==> ReadOne(pipe[pos..], parses) == Got(m, pipe[pos + 8 + |m|..])
  {
    ghost var b := pipe[pos..];
    MagicPrefix(b);
    m, err, stop, seen := [], None, true, false;
    if |pipe| < pos + 4 {
      err := Some(ShortMagic);
      return;
    }
    var magic := pipe[pos..pos + 4];
    assert magic == b[..4];
    if FromLe32(magic) != MAGIC {
      err := Some(BadMagic);
      return;
    }
    seen := true;
    if |pipe| == pos + 4 {
      return; // a closed pipe while waiting for the next size is a normal shutdown
    }
    if |pipe| < pos + 8 {
      err := Some(ShortSize);
      return;
    }
    var sizeBytes := pipe[pos + 4..pos + 8];
    assert sizeBytes == b[4..8];
    var size := FromLe32(sizeBytes);
    if size > MAX_SIZE {
      err := Some(BadSize);
      return;
    }
    if |pipe| < pos + 8 + size {
      err := Some(ShortMessage);
      return;
    }
    m := pipe[pos + 8..pos + 8 + size];
    assert m == b[8..8 + size];
    if !parses(m) {
      err := Some(BadMessage);
      return;
    }
    stop := false;
    assert pipe[pos + 8 + size..] == b[8 + size..];
  }

  lemma MagicPrefix(b: Bytes)
    ensures Le32(MAGIC) <= b <==> |b| >= 4 && FromLe32(b[..4]) == MAGIC
  {
    Le32Inverse(MAGIC);
    if |b| >= 4 && FromLe32(b[..4]) == MAGIC {
      FromLe32Inverse(b[..4]);
    }
  }

  // ---------------------------------------------------------------- the two undo each other

  lemma StreamUnfold(ms: seq<Bytes>)
    requires ms != [] && forall m <- ms :: Fits(m)
    ensures Fits(ms[0])
    ensures Stream(ms) == Le32(MAGIC) + Le32(|ms[0]|) + ms[0] + Stream(ms[1..])
  {
    assert ms[0] in ms;
  }

  /** Reading back an orderly stream yields its messages and no error. */
  lemma {:induction false} ReadOfStream(ms: seq<Bytes>, parses: Bytes -> bool)
    requires forall m <- ms :: Fits(m) && parses(m)
    ensures Read(Stream(ms), parses) == ReadResult(ms, None)
  {
    if ms == [] {
      ReadOneSound(Stream(ms), parses);
      Le32Inverse(MAGIC);
    } else {
      assert ms[0] in ms;
      StreamUnfold(ms);
      ReadOneComplete(ms[0], Stream(ms[1..]), parses);
      ReadOfStream(ms[1..], parses);
    }
  }

  /** Round trip: the reader recovers exactly the messages of size at most MAX_SIZE, in order. */
  lemma RoundTrip(ms: seq<Bytes>, parses: Bytes -> bool)
    requires forall m <- ms :: Fits(m) ==> parses(m)
    ensures Read(Stream(Sendable(ms)), parses) == ReadResult(Sendable(ms), None)
  {
    ReadOfStream(Sendable(ms), parses);
  }

  /** Conversely, for arbitrary bytes: everything the reader yields fits and parses, and if it
      reports no error then the bytes are exactly the stream the writer produces for it. */
  lemma {:induction false} ReadIsSound(b: Bytes, parses: Bytes -> bool)
    ensures var r := Read(b, parses);
            && (forall m <- r.msgs :: Fits(m) && parses(m))
            && (r.err == None ==> b == Stream(r.msgs))
    decreases |b|
  {
    ReadOneSound(b, parses);
    match ReadOne(b, parses)
    case Stop(_) =>
    case Got(m, rest) =>
      ReadIsSound(rest, parses);
      var tail := Read(rest, parses).msgs;
      var msgs := [m] + tail;
      assert msgs[1..] == tail;
      StreamUnfold(msgs);
  }

  /** The error-free inputs are exactly the writer's streams. */
  lemma CleanIffStream(b: Bytes, parses: Bytes -> bool)
    ensures Read(b, parses).err == None
       <==> exists ms: seq<Bytes> :: (forall m <- ms :: Fits(m) && parses(m)) && b == Stream(ms)
  {
    ReadIsSound(b, parses);
    forall ms: seq<Bytes> | (forall m <- ms :: Fits(m) && parses(m)) && b == Stream(ms)
      ensures Read(b, parses).err == None
    {
      ReadOfStream(ms, parses);
    }
  }

  /** Cutting any byte string `b + lost` short at `b` loses a suffix of the messages, nothing else. */
  lemma {:induction false} CutYieldsPrefix(b: Bytes, lost: Bytes, parses: Bytes -> bool)
    ensures Read(b, parses).msgs <= Read(b + lost, parses).msgs
    decreases |b|
  {
    ReadOneSound(b, parses);
    match ReadOne(b, parses)
    case Stop(_) =>
    case Got(m, rest) =>
      assert b + lost == Le32(MAGIC) + Le32(|m|) + m + (rest + lost);
      ReadOneComplete(m, rest + lost, parses);
      CutYieldsPrefix(rest, lost, parses);
  }

  lemma {:induction false} StreamPrefix(ms: seq<Bytes>, k: nat)
    requires k <= |ms| && forall m <- ms :: Fits(m)
    ensures Stream(ms[..k]) <= Stream(ms)
  {
    if k > 0 {
      StreamPrefix(ms[1..], k - 1);
      assert ms[..k][1..] == ms[1..][..k - 1];
      StreamUnfold(ms[..k]);
      StreamUnfold(ms);
    }
  }

  /** Truncation of the writer's stream: the reader yields a prefix of the messages sent, and it
      reports no error exactly when the cut falls right after a magic number; in that case the
      messages are those framed before it. */
  lemma Truncation(ms: seq<Bytes>, cut: nat, parses: Bytes -> bool)
    requires forall m <- ms :: Fits(m) && parses(m)
    requires cut <= |Stream(ms)|
    ensures var r := Read(Stream(ms)[..cut], parses);
            && r.msgs <= ms
            && (r.err == None <==> exists k: nat :: k <= |ms| && cut == |Stream(ms[..k])|)
            && (r.err == None ==> cut == |Stream(r.msgs)|)
  {
    var s := Stream(ms);
    var r := Read(s[..cut], parses);
    ReadOfStream(ms, parses);
    assert s == s[..cut] + s[cut..];
    CutYieldsPrefix(s[..cut], s[cut..], parses);
    ReadIsSound(s[..cut], parses);
    if r.err == None {
      assert r.msgs == ms[..|r.msgs|];
    }
    forall k: nat | k <= |ms| && cut == |Stream(ms[..k])|
      ensures r.err == None
    {
      StreamPrefix(ms, k);
      assert s[..cut] == Stream(ms[..k]);
      ReadOfStream(ms[..k], parses);
    }
  }
}

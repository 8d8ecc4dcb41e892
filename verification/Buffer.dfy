/** The network buffer (src/net/buffer.cpp): one block of storage, a reader index and a writer
    index. `contents` is the byte queue it stands for; `initial` and `peak` record what the space
    bound is about. */
module Buffers {
  import opened Wrappers

  const CHEAP_PREPEND: nat := 8
  const INITIAL_SIZE: nat := 1024
  const SPILL_SIZE: nat := 65536

  /** What readv(2) reports: an errno, or a number of bytes taken from the front of what the peer sent. */
  datatype Readv = Failed(errno: int) | Read(n: nat)

  class Buffer {
    var storage: array<char>
    var readerIndex: nat
    var writerIndex: nat

    ghost var contents: Bytes   // the readable bytes, in order
    ghost var initial: nat      // the constructor's argument
    ghost var peak: nat         // the most bytes ever held, or held plus asked room for

    /** The storage never holds more than twice the peak, up to the prepend area. */
    ghost predicate Valid()
      reads this, storage
    {
      && readerIndex <= writerIndex <= storage.Length
      && contents == storage[readerIndex..writerIndex]
      && |contents| <= peak
      && CHEAP_PREPEND + initial <= storage.Length <= Max(CHEAP_PREPEND + initial, 2 * peak + 7)
    }

    constructor (initialSize: nat)
      ensures Valid() && fresh(storage)
      ensures contents == [] && initial == initialSize && peak == 0
      ensures WritableBytes() == initialSize && PrependableBytes() == CHEAP_PREPEND
    {
      storage := new char[CHEAP_PREPEND + initialSize](_ => '\0');
      readerIndex, writerIndex := CHEAP_PREPEND, CHEAP_PREPEND;
      contents, initial, peak := [], initialSize, 0;
    }

    function ReadableBytes(): (n: nat)
      requires Valid()
      reads this, storage
      ensures n == |contents|
    {
      writerIndex - readerIndex
    }

    function WritableBytes(): nat
      requires Valid()
      reads this, storage
    {
      storage.Length - writerIndex
    }

    function PrependableBytes(): nat
      reads this
    {
      readerIndex
    }

    /** string(peek(), len): the source asks only that the block has that many bytes after the
        reader index. Within the readable bytes this is a prefix of the contents. */
    method PeekAsString(len: nat) returns (s: Bytes)
      requires Valid() && readerIndex + len <= storage.Length
      ensures |s| == len
      ensures len <= |contents| ==> s == contents[..len]
      ensures s[..Min(len, |contents|)] == contents[..Min(len, |contents|)]
    {
      s := storage[readerIndex..readerIndex + len];
    }

    method RetrieveAll()
      requires Valid()
      modifies this`readerIndex, this`writerIndex, this`contents
      ensures Valid() && contents == []
    {
      readerIndex, writerIndex := CHEAP_PREPEND, CHEAP_PREPEND;
      contents := [];
    }

    method Retrieve(len: nat)
      requires Valid()
      modifies this`readerIndex, this`writerIndex, this`contents
      ensures Valid() && contents == old(contents)[Min(len, |old(contents)|)..]
    {
      if len < ReadableBytes() {
        readerIndex := readerIndex + len;
        contents := contents[len..];
      } else {
        RetrieveAll();
      }
    }

    /** `end` is the offset in the block of the position to read up to. */
    method RetrieveUntil(end: nat)
      requires Valid() && readerIndex <= end <= writerIndex
      modifies this`readerIndex, this`writerIndex, this`contents
      ensures Valid() && contents == old(contents)[end - old(readerIndex)..]
    {
      Retrieve(end - readerIndex);
    }

    method RetrieveAsString(len: nat) returns (s: Bytes)
      requires Valid() && readerIndex + len <= storage.Length
      modifies this`readerIndex, this`writerIndex, this`contents
      ensures Valid() && |s| == len
      ensures s[..Min(len, |old(contents)|)] + contents == old(contents)
    {
      s := PeekAsString(len);
      Retrieve(len);
    }

    method RetrieveAllAsString() returns (s: Bytes)
      requires Valid()
      modifies this`readerIndex, this`writerIndex, this`contents
      ensures Valid() && s == old(contents) && contents == []
    {
      s := RetrieveAsString(ReadableBytes());
    }

    /** std::copy of storage[first..last] to `dest`, front to back. Its own rule is that the
        destination must not begin inside the source range. */
    method CopyWithin(first: nat, last: nat, dest: nat)
      requires first <= last <= storage.Length && dest + (last - first) <= storage.Length
      requires !(first <= dest < last)
      modifies storage
      ensures storage[dest..dest + (last - first)] == old(storage[first..last])
    {
      var k := 0;
      while k < last - first
        invariant k <= last - first
        invariant storage[dest..dest + k] == old(storage[first..first + k])
        invariant forall i :: 0 <= i < storage.Length && !(dest <= i < dest + k) ==> storage[i] == old(storage[i])
      {
        storage[dest + k] := storage[first + k];
        k := k + 1;
      }
    }

    /** std::copy of `data` to offset `at`. */
    method CopyIn(data: Bytes, at: nat)
      requires at + |data| <= storage.Length
      modifies storage
      ensures storage[at..at + |data|] == data
      ensures storage[..at] == old(storage[..at])
      ensures storage[at + |data|..] == old(storage[at + |data|..])
    {
      var k := 0;
      while k < |data|
        invariant k <= |data|
        invariant storage[at..at + k] == data[..k]
        invariant forall i :: 0 <= i < storage.Length && !(at <= i < at + k) ==> storage[i] == old(storage[i])
      {
        storage[at + k] := data[k];
        k := k + 1;
      }
    }

    /** A bigger block, the bytes where they were; resize never cuts the block here. */
    method Grow(size: nat)
      requires Valid() && storage.Length < size <= 2 * peak + 7
      modifies `storage
      ensures Valid() && fresh(storage) && storage.Length == size
    {
      var bigger := new char[size](_ => '\0');
      forall i | 0 <= i < storage.Length {
        bigger[i] := storage[i];
      }
      assert bigger[readerIndex..writerIndex] == contents;
      storage := bigger;
    }

    /** The readable bytes moved to the front, strictly to the left. */
    method Compact()
      requires Valid() && readerIndex > CHEAP_PREPEND
      modifies `readerIndex, `writerIndex, storage
      ensures Valid() && readerIndex == CHEAP_PREPEND && writerIndex == CHEAP_PREPEND + |contents|
    {
      var readable := ReadableBytes();
      CopyWithin(readerIndex, writerIndex, CHEAP_PREPEND);
      readerIndex := CHEAP_PREPEND;
      writerIndex := CHEAP_PREPEND + readable;
    }

    /** Makes room for `len` more bytes. Called only when they do not fit. The compacting branch
        always has more than 8 bytes in front of the reader, even after prepends, so its copy moves
        strictly to the left; the growing branch never cuts the block. */
    method MakeSpace(len: nat)
      requires Valid() && WritableBytes() < len
      modifies this, storage
      ensures Valid() && WritableBytes() >= len
      ensures contents == old(contents) && initial == old(initial)
      ensures peak == Max(old(peak), |contents| + len)
      ensures storage == old(storage) || (fresh(storage) && storage.Length > old(storage.Length))
      ensures storage == old(storage) ==> old(readerIndex) > CHEAP_PREPEND
    {
      peak := Max(peak, |contents| + len);
      if WritableBytes() + PrependableBytes() < len + CHEAP_PREPEND {
        Grow(writerIndex + len);
      } else {
        Compact();
      }
    }

    method EnsureWritableBytes(len: nat)
      requires Valid()
      modifies this, storage
      ensures Valid() && WritableBytes() >= len
      ensures contents == old(contents) && initial == old(initial)
      ensures old(peak) <= peak <= Max(old(peak), |contents| + len)
      ensures storage == old(storage) || (fresh(storage) && storage.Length > old(storage.Length))
    {
      if WritableBytes() < len {
        MakeSpace(len);
      }
    }

    /** Bytes written at the writer index, and the index moved past them: the common tail of append
        and readFd. */
    method Fill(data: Bytes)
      requires Valid() && |data| <= WritableBytes()
      modifies this, storage
      ensures Valid() && contents == old(contents) + data && initial == old(initial)
      ensures peak == Max(old(peak), |contents|) && storage == old(storage)
      ensures writerIndex == old(writerIndex) + |data|
    {
      ghost var before := contents;
      CopyIn(data, writerIndex);
      assert storage[readerIndex..writerIndex] == before;
      writerIndex := writerIndex + |data|;
      contents := contents + data;
      peak := Max(peak, |contents|);
      assert storage[readerIndex..writerIndex] == before + data;
    }

    method Append(data: Bytes)
      requires Valid()
      modifies this, storage
      ensures Valid() && contents == old(contents) + data && initial == old(initial)
      ensures peak == Max(old(peak), |contents|)
      ensures storage == old(storage) || (fresh(storage) && storage.Length > old(storage.Length))
    {
      EnsureWritableBytes(|data|);
      Fill(data);
    }

    method Prepend(data: Bytes)
      requires Valid() && |data| <= PrependableBytes()
      modifies this, storage
      ensures Valid() && contents == data + old(contents) && initial == old(initial)
      ensures peak == Max(old(peak), |contents|)
      ensures storage == old(storage)
    {
      ghost var before := contents;
      ghost var was := readerIndex;
      readerIndex := readerIndex - |data|;
      CopyIn(data, readerIndex);
      assert storage[was..writerIndex] == before;
      contents := data + contents;
      peak := Max(peak, |contents|);
      assert storage[readerIndex..writerIndex] == data + before;
    }

    /** readv into the free space and, when that is below 64 KiB, into a spill area on the stack.
        `sent` is what the peer has sent and this side has not read; the kernel takes any prefix of
        it that the vectors can hold. */
    method ReadFd(sent: Bytes, result: Readv) returns (n: int, savedErrno: int)
      requires Valid()
      requires result.Read? ==> result.n <= |sent|
      requires result.Read? ==>
                 result.n <= WritableBytes() + (if WritableBytes() < SPILL_SIZE then SPILL_SIZE else 0)
      modifies this, storage
      ensures Valid() && initial == old(initial)
      ensures result.Failed? ==> n == -1 && savedErrno == result.errno && contents == old(contents) && peak == old(peak)
      ensures result.Read? ==> n == result.n && contents == old(contents) + sent[..n]
      ensures result.Read? ==> peak == Max(old(peak), |contents|)
      ensures storage == old(storage) || (fresh(storage) && storage.Length > old(storage.Length))
    {
      if result.Failed? {
        return -1, result.errno;
      }
      n, savedErrno := result.n, 0;
      var writable := WritableBytes();
      if n <= writable {
        Fill(sent[..n]);
      } else {
        // The kernel fills the first vector before it touches the second.
        Fill(sent[..writable]);
        Append(sent[writable..n]);
        assert sent[..writable] + sent[writable..n] == sent[..n];
        assert old(contents) + sent[..writable] + sent[writable..n] == old(contents) + sent[..n];
      }
    }
  }

  // ---- Whole runs ----

  /** What users of a buffer do with it. */
  datatype Op = Append(data: Bytes) | Prepend(data: Bytes) | ReadFd(data: Bytes) | Retrieve(n: nat)

  /** The byte queue the buffer stands for, what was taken out of it, and the most it ever held. */
  datatype Flow = Flow(queue: Bytes, taken: Bytes, peak: nat)

  function After(f: Flow, op: Op): Flow {
    match op
    case Append(data) => Flow(f.queue + data, f.taken, Max(f.peak, |f.queue + data|))
    case ReadFd(data) => Flow(f.queue + data, f.taken, Max(f.peak, |f.queue + data|))
    case Prepend(data) => Flow(data + f.queue, f.taken, Max(f.peak, |data + f.queue|))
    case Retrieve(n) =>
      var k := Min(n, |f.queue|);
      Flow(f.queue[k..], f.taken + f.queue[..k], f.peak)
  }

  function Play(ops: seq<Op>): (f: Flow)
    ensures |f.queue| <= f.peak
  {
    if ops == [] then Flow([], [], 0) else After(Play(ops[..|ops| - 1]), ops[|ops| - 1])
  }

  /** Everything that was put in. */
  function Given(ops: seq<Op>): Bytes {
    if ops == [] then []
    else
      var op := ops[|ops| - 1];
      Given(ops[..|ops| - 1]) + if op.Retrieve? then [] else op.data
  }

  /** The peak is the length of the longest queue there was. */
  lemma PeakIsHighest(ops: seq<Op>)
    ensures forall k :: 0 <= k <= |ops| ==> |Play(ops[..k]).queue| <= Play(ops).peak
    ensures exists k :: 0 <= k <= |ops| && |Play(ops[..k]).queue| == Play(ops).peak
  {
    forall k | 0 <= k <= |ops|
      ensures |Play(ops[..k]).queue| <= Play(ops).peak
    {
      PeakIsHigh(ops, k);
    }
    var k := PeakIsReached(ops);
  }

  lemma {:induction false} PeakIsHigh(ops: seq<Op>, k: nat)
    requires k <= |ops|
    ensures |Play(ops[..k]).queue| <= Play(ops).peak
    decreases |ops|
  {
    if k == |ops| {
      assert ops[..k] == ops;
    } else {
      PeakIsHigh(ops[..|ops| - 1], k);
      assert ops[..|ops| - 1][..k] == ops[..k];
    }
  }

  lemma {:induction false} PeakIsReached(ops: seq<Op>) returns (k: nat)
    ensures k <= |ops| && |Play(ops[..k]).queue| == Play(ops).peak
    decreases |ops|
  {
    k := |ops|;
    assert ops[..k] == ops;
    if |Play(ops).queue| != Play(ops).peak {
      k := PeakIsReached(ops[..|ops| - 1]);
      assert ops[..|ops| - 1][..k] == ops[..k];
    }
  }

  /** Without prepends, what came out followed by what is held is what went in. */
  lemma {:induction false} FirstInFirstOut(ops: seq<Op>)
    requires forall op :: op in ops ==> !op.Prepend?
    ensures Play(ops).taken + Play(ops).queue == Given(ops)
  {
    if ops != [] {
      var f := Play(ops[..|ops| - 1]);
      var op := ops[|ops| - 1];
      FirstInFirstOut(ops[..|ops| - 1]);
      assert op in ops;
      if op.Retrieve? {
        var k := Min(op.n, |f.queue|);
        assert f.taken + f.queue[..k] + f.queue[k..] == f.taken + f.queue;
      } else {
        assert f.taken + (f.queue + op.data) == f.taken + f.queue + op.data;
      }
    }
  }

  /** With prepends, no byte is lost or made up. */
  lemma {:induction false} NothingLost(ops: seq<Op>)
    ensures multiset(Play(ops).taken) + multiset(Play(ops).queue) == multiset(Given(ops))
  {
    if ops != [] {
      var f := Play(ops[..|ops| - 1]);
      var op := ops[|ops| - 1];
      NothingLost(ops[..|ops| - 1]);
      if op.Retrieve? {
        var k := Min(op.n, |f.queue|);
        assert f.queue[..k] + f.queue[k..] == f.queue;
      }
    }
  }

  /** What of an operation can be done: a prepend is cut to the room in front, beyond which the source
      asserts, and a read to what the kernel can deliver at once. */
  predicate Cut(op: Op, done: Op) {
    match op
    case Prepend(data) => done.Prepend? && done.data <= data
    case ReadFd(data) => done.ReadFd? && done.data <= data && (|data| <= SPILL_SIZE ==> done == op)
    case _ => done == op
  }

  method Perform(b: Buffer, op: Op) returns (done: Op, out: Bytes)
    requires b.Valid()
    modifies b, b.storage
    ensures b.Valid() && b.initial == old(b.initial) && Cut(op, done)
    ensures forall taken ::
              After(Flow(old(b.contents), taken, old(b.peak)), done) == Flow(b.contents, taken + out, b.peak)
    ensures b.storage == old(b.storage) || (fresh(b.storage) && b.storage.Length > old(b.storage.Length))
  {
    done, out := op, [];
    match op
    case Append(data) => b.Append(data);
    case Prepend(data) =>
      done := Prepend(data[..Min(|data|, b.PrependableBytes())]);
      b.Prepend(done.data);
    case ReadFd(data) =>
      var room := b.WritableBytes() + if b.WritableBytes() < SPILL_SIZE then SPILL_SIZE else 0;
      done := ReadFd(data[..Min(|data|, room)]);
      var _, _ := b.ReadFd(done.data, Read(|done.data|));
      assert done.data[..|done.data|] == done.data && data[..|data|] == data;
    case Retrieve(n) =>
      out := b.RetrieveAsString(Min(n, b.ReadableBytes()));
  }

  /** Over any schedule of appends, prepends, reads and retrievals: the buffer is the byte queue, and its
      block is as small as the bound says for the most it ever held. */
  method Pump(initialSize: nat, ops: seq<Op>)
    returns (done: seq<Op>, taken: Bytes, left: Bytes, size: nat, peak: nat)
    ensures |done| == |ops| && forall i :: 0 <= i < |ops| ==> Cut(ops[i], done[i])
    ensures Play(done) == Flow(left, taken, peak)
    ensures CHEAP_PREPEND + initialSize <= size <= Max(CHEAP_PREPEND + initialSize, 2 * peak + 7)
  {
    var b := new Buffer(initialSize);
    done, taken, peak := [], [], 0;
    var i := 0;
    while i < |ops|
      invariant i <= |ops| && |done| == i
      invariant b.Valid() && fresh(b) && fresh(b.storage) && b.initial == initialSize
      invariant forall k :: 0 <= k < i ==> Cut(ops[k], done[k])
      invariant Play(done) == Flow(b.contents, taken, peak) && peak == b.peak
    {
      var did, out := Perform(b, ops[i]);
      assert (done + [did])[..i] == done;
      done, taken, peak := done + [did], taken + out, Max(peak, b.ReadableBytes());
      i := i + 1;
    }
    size := b.storage.Length;
    left := b.RetrieveAllAsString();
  }
}

/** ringFIO: a file handle with a cursor on top of a ring, and the copy loop of the cp example. */
module FileIO {
  import opened Window
  import opened Submission
  import opened FileRing

  /** What a call returns as its error. `Hung` stands for a call that never returns. */
  datatype Error = NoError | Eof | Errno(code: int) | UnknownWhence | Hung

  // ---------- The cursor ----------

  /** What happened on a handle: a transfer of `n` bytes at offset `at` (by ReadAt or WriteAt if `positioned`),
      or a seek. */
  datatype Event =
    | Transfer(positioned: bool, at: int, n: nat)
    | SeekTo(pos: int)
    | SeekBy(delta: int)

  /** The cursor after the events of `log`. */
  function Cursor(log: seq<Event>): int {
    if log == [] then 0
    else
      var before := Cursor(log[..|log| - 1]);
      match log[|log| - 1]
      case Transfer(_, _, n) => before + n
      case SeekTo(pos) => pos
      case SeekBy(delta) => before + delta
  }

  /** Transfers at the cursor were made at the cursor. */
  ghost predicate Faithful(log: seq<Event>) {
    forall k :: 0 <= k < |log| && log[k].Transfer? && !log[k].positioned ==> log[k].at == Cursor(log[..k])
  }

  /** The bytes moved by the events from `i` on. */
  function Moved(log: seq<Event>, i: nat): int
    requires i <= |log|
    decreases |log|
  {
    if i == |log| then 0
    else
      var before := Moved(log[..|log| - 1], i);
      match log[|log| - 1]
      case Transfer(_, _, n) => before + n
      case SeekTo(_) => before
      case SeekBy(delta) => before + delta
  }

  /** The cursor is the last absolute seek plus everything since: results of reads and writes, positioned or not, and
      relative seeks. */
  lemma {:induction false} CursorIsSum(log: seq<Event>, i: nat)
    requires i <= |log| && forall k :: i <= k < |log| ==> !log[k].SeekTo?
    ensures Cursor(log) == Cursor(log[..i]) + Moved(log, i)
    decreases |log|
  {
    if i < |log| {
      var shorter := log[..|log| - 1];
      CursorIsSum(shorter, i);
      assert shorter[..i] == log[..i];
    } else {
      assert log[..i] == log;
    }
  }

  /** Consecutive transfers at the cursor tile the file: each starts where the one before it ended. */
  lemma TransfersTile(log: seq<Event>, k: nat)
    requires Faithful(log) && k + 1 < |log|
    requires log[k].Transfer? && !log[k].positioned && log[k + 1].Transfer? && !log[k + 1].positioned
    ensures log[k + 1].at == log[k].at + log[k].n
  {
    assert log[..k + 1][..k] == log[..k];
  }

  lemma FaithfulNext(log: seq<Event>, e: Event)
    requires Faithful(log) && (e.Transfer? && !e.positioned ==> e.at == Cursor(log))
    ensures Faithful(log + [e])
    ensures Cursor(log + [e]) == match e
              case Transfer(_, _, n) => Cursor(log) + n
              case SeekTo(pos) => pos
              case SeekBy(d) => Cursor(log) + d
  {
    var longer := log + [e];
    assert longer[..|log|] == log;
    forall k | 0 <= k < |log| ensures longer[..k] == log[..k] {
    }
  }

  // ---------- The handle ----------

  datatype Whence = Start | Current | End | Other

  /** What looking up the file's size came to. */
  datatype Stat = Size(size: nat) | Failed(code: int)

  /** Where io.Seeker says a seek leads. */
  function SeekerPosition(cursor: int, offset: int, whence: Whence, size: nat): int {
    match whence
    case Start => offset
    case Current => cursor + offset
    case End => size + offset
    case Other => cursor
  }

  /** The error a read returns for a result. */
  function ReadError(res: int): Error {
    if res < 0 then Errno(-res) else if res == 0 then Eof else NoError
  }

  /** The error a write returns for a result. */
  function WriteError(res: int): Error {
    if res < 0 then Errno(-res) else NoError
  }

  lemma ReadEffect(sqe: Sqe, files: Files, files': Files, before: seq<byte>, after: seq<byte>, res: int)
    requires sqe.opcode.Read? && Performed(sqe, files, files', before, after, res)
    ensures files' == files && (res <= 0 ==> after == before)
    ensures res >= 0 ==> sqe.fd in files && 0 <= sqe.offset && res <= sqe.len
    ensures res == 0 ==> sqe.len == 0 || sqe.offset >= |files[sqe.fd]|
    ensures res > 0 ==>
              && res <= |before| && sqe.offset + res <= |files[sqe.fd]|
              && after == files[sqe.fd][sqe.offset..sqe.offset + res] + before[res..]
  {
  }

  class RingFile {
    const ring: IoRing
    const fd: int
    var fOffset: int
    ghost var log: seq<Event>

    /** The cursor agrees with everything done on the handle. */
    ghost predicate Tracked()
      reads this`fOffset, this`log
    {
      fOffset == Cursor(log) && Faithful(log)
    }

    constructor (ring: IoRing, fd: int)
      ensures this.ring == ring && this.fd == fd && fOffset == 0 && log == [] && Tracked()
    {
      this.ring := ring;
      this.fd := fd;
      fOffset := 0;
      log := [];
    }

    /** A transfer of `n` bytes moves the cursor. */
    method Advance(positioned: bool, at: int, n: nat)
      requires Tracked() && (!positioned ==> at == fOffset)
      modifies this`fOffset, this`log
      ensures Tracked() && fOffset == old(fOffset) + n && log == old(log) + [Event.Transfer(positioned, at, n)]
    {
      FaithfulNext(log, Event.Transfer(positioned, at, n));
      fOffset := fOffset + n;
      log := log + [Event.Transfer(positioned, at, n)];
    }

    /** The part of getCqe that belongs to the handle: a non-negative result moves the cursor. `res` is what the kernel
        said, whether or not the call gets to see it. */
    method Transfer(opcode: Opcode, positioned: bool, at: int, len: nat, b: array<byte>)
      returns (reply: Reply, ghost res: int)
      requires Tracked() && ring.Valid() && b !in ring.Repr() && len <= b.Length && (!positioned ==> at == fOffset)
      modifies this`fOffset, this`log, ring.Repr(), b
      ensures Tracked() && (reply.Result? ==> ring.Valid()) && (reply.Never? <==> ring.Stalled())
      ensures reply == if old(ring.NextFills()) then Never else Result(res)
      ensures ring.posted == old(ring.posted) + [Cqe(ring.idx, res, 0)]
      ensures ring.submitted == old(ring.submitted) + [Sqe(opcode, fd, at, len, b, ring.idx)]
      ensures ring.Clean() <==> old(ring.Clean()) && res >= 0
      ensures Performed(Sqe(opcode, fd, at, len, b, ring.idx), old(ring.files), ring.files, old(b[..]), b[..], res)
      ensures var moved := reply.Result? && res >= 0;
              && fOffset == old(fOffset) + (if moved then res else 0)
              && log == old(log) + if moved then [Event.Transfer(positioned, at, res)] else []
    {
      reply, res := ring.Perform(opcode, fd, at, len, b);
      if reply.Result? && reply.res >= 0 { Advance(positioned, at, reply.res); }
    }

    /** A transfer into the buffer. */
    method Receive(positioned: bool, at: int, b: array<byte>) returns (reply: Reply, ghost res: int)
      requires Tracked() && ring.Valid() && b !in ring.Repr() && (!positioned ==> at == fOffset)
      modifies this, ring.Repr(), b
      ensures Tracked() && (reply.Result? ==> ring.Valid()) && (reply.Never? <==> ring.Stalled())
      ensures reply == if old(ring.NextFills()) then Never else Result(res)
      ensures ring.posted == old(ring.posted) + [Cqe(ring.idx, res, 0)]
      ensures ring.submitted == old(ring.submitted) + [Sqe(Opcode.Read, fd, at, b.Length, b, ring.idx)]
      ensures ring.Clean() <==> old(ring.Clean()) && res >= 0
      ensures ring.files == old(ring.files) && (res <= 0 ==> b[..] == old(b[..]))
      ensures res >= 0 ==> fd in ring.files && 0 <= at && res <= b.Length
      ensures res == 0 ==> b.Length == 0 || at >= |ring.files[fd]|
      ensures res > 0 ==>
                at + res <= |ring.files[fd]| && b[..] == ring.files[fd][at..at + res] + old(b[..])[res..]
      ensures var moved := reply.Result? && res >= 0;
              && fOffset == old(fOffset) + (if moved then res else 0)
              && log == old(log) + if moved then [Event.Transfer(positioned, at, res)] else []
    {
      reply, res := Transfer(Opcode.Read, positioned, at, b.Length, b);
      ReadEffect(Sqe(Opcode.Read, fd, at, b.Length, b, ring.idx), old(ring.files), ring.files, old(b[..]), b[..], res);
    }

    /** Read and ReadAt, up to where the offset comes from. */
    method Fetch(positioned: bool, at: int, b: array<byte>) returns (n: int, err: Error, ghost res: int)
      requires Tracked() && ring.Valid() && b !in ring.Repr() && (!positioned ==> at == fOffset)
      modifies this, ring.Repr(), b
      ensures Tracked() && (!err.Hung? ==> ring.Valid()) && (err.Hung? <==> ring.Stalled())
      ensures err == if old(ring.NextFills()) then Hung else ReadError(res)
      ensures ring.posted == old(ring.posted) + [Cqe(ring.idx, res, 0)]
      ensures ring.submitted == old(ring.submitted) + [Sqe(Opcode.Read, fd, at, b.Length, b, ring.idx)]
      ensures err.Errno? ==> err.code > 0 && res == -err.code
      ensures ring.Clean() <==> old(ring.Clean()) && res >= 0
      ensures ring.files == old(ring.files) && n == (if err.NoError? then res else 0) && fOffset == old(fOffset) + n
      ensures err.NoError? ==>
                && n <= b.Length && fd in ring.files && 0 <= at && at + n <= |ring.files[fd]|
                && b[..] == ring.files[fd][at..at + n] + old(b[..])[n..]
      ensures err.Eof? ==> fd in ring.files && (b.Length == 0 || at >= |ring.files[fd]|)
      ensures err.Eof? || err.Errno? ==> b[..] == old(b[..])
      ensures log == old(log) + if err.NoError? || err.Eof? then [Event.Transfer(positioned, at, n)] else []
    {
      var reply;
      reply, res := Receive(positioned, at, b);
      n := if reply.Result? && reply.res > 0 then reply.res else 0;
      err := if reply.Never? then Hung else ReadError(reply.res);
    }

    /** The source takes the address of b[0], so an empty buffer is a caller's error. The error is that of the
        completion posted for the call, and the call never returns exactly when that completion fills the ring behind
        an earlier failure. */
    method Read(b: array<byte>) returns (n: int, err: Error, ghost res: int)
      requires Tracked() && ring.Valid() && b !in ring.Repr() && b.Length > 0
      modifies this, ring.Repr(), b
      ensures Tracked() && (!err.Hung? ==> ring.Valid()) && (err.Hung? <==> ring.Stalled())
      ensures err == if old(ring.NextFills()) then Hung else ReadError(res)
      ensures ring.posted == old(ring.posted) + [Cqe(ring.idx, res, 0)]
      ensures ring.submitted == old(ring.submitted) + [Sqe(Opcode.Read, fd, old(fOffset), b.Length, b, ring.idx)]
      ensures err.Errno? ==> err.code > 0 && res == -err.code
      ensures ring.Clean() <==> old(ring.Clean()) && res >= 0
      ensures ring.files == old(ring.files) && n == (if err.NoError? then res else 0) && fOffset == old(fOffset) + n
      ensures err.NoError? ==>
                && n <= b.Length && fd in ring.files && 0 <= old(fOffset) && fOffset <= |ring.files[fd]|
                && b[..] == ring.files[fd][old(fOffset)..fOffset] + old(b[..])[n..]
      ensures err.Eof? ==> fd in ring.files && fOffset >= |ring.files[fd]|
      ensures err.Eof? || err.Errno? ==> b[..] == old(b[..])
      ensures log == old(log) + if err.NoError? || err.Eof? then [Event.Transfer(false, old(fOffset), n)] else []
    {
      n, err, res := Fetch(false, fOffset, b);
    }

    /** Write and WriteAt, up to where the offset comes from: the first `len` bytes of `b` are written. */
    method Put(positioned: bool, at: int, b: array<byte>, len: nat) returns (n: int, err: Error, ghost res: int)
      requires Tracked() && ring.Valid() && b !in ring.Repr() && 0 < len <= b.Length && (!positioned ==> at == fOffset)
      modifies this, ring.Repr(), b
      ensures Tracked() && (!err.Hung? ==> ring.Valid()) && (err.Hung? <==> ring.Stalled())
      ensures err == if old(ring.NextFills()) then Hung else WriteError(res)
      ensures ring.posted == old(ring.posted) + [Cqe(ring.idx, res, 0)]
      ensures ring.submitted == old(ring.submitted) + [Sqe(Opcode.Write, fd, at, len, b, ring.idx)]
      ensures err.Errno? ==> err.code > 0 && res == -err.code
      ensures ring.Clean() <==> old(ring.Clean()) && res >= 0
      ensures b[..] == old(b[..]) && n == (if err.NoError? then res else 0) && fOffset == old(fOffset) + n
      ensures err.NoError? ==>
                && 0 < n <= len && 0 <= at && fd in old(ring.files)
                && ring.files == old(ring.files)[fd := Splice(old(ring.files)[fd], at, b[..n])]
      ensures err.Errno? ==> ring.files == old(ring.files)
      ensures ring.files.Keys == old(ring.files.Keys)
      ensures forall g :: g in ring.files && g != fd ==> ring.files[g] == old(ring.files)[g]
      ensures log == old(log) + if err.NoError? then [Event.Transfer(positioned, at, n)] else []
    {
      var reply;
      reply, res := Transfer(Opcode.Write, positioned, at, len, b);
      n := if reply.Result? && reply.res > 0 then reply.res else 0;
      err := if reply.Never? then Hung else WriteError(reply.res);
    }

    /** Write the first `len` bytes of `b`. */
    method Write(b: array<byte>, len: nat) returns (n: int, err: Error, ghost res: int)
      requires Tracked() && ring.Valid() && b !in ring.Repr() && 0 < len <= b.Length
      modifies this, ring.Repr(), b
      ensures Tracked() && (!err.Hung? ==> ring.Valid()) && (err.Hung? <==> ring.Stalled())
      ensures err == if old(ring.NextFills()) then Hung else WriteError(res)
      ensures ring.posted == old(ring.posted) + [Cqe(ring.idx, res, 0)]
      ensures ring.submitted == old(ring.submitted) + [Sqe(Opcode.Write, fd, old(fOffset), len, b, ring.idx)]
      ensures err.Errno? ==> err.code > 0 && res == -err.code
      ensures ring.Clean() <==> old(ring.Clean()) && res >= 0
      ensures b[..] == old(b[..]) && n == (if err.NoError? then res else 0) && fOffset == old(fOffset) + n
      ensures err.NoError? ==>
                && 0 < n <= len && 0 <= old(fOffset) && fd in old(ring.files)
                && ring.files == old(ring.files)[fd := Splice(old(ring.files)[fd], old(fOffset), b[..n])]
      ensures err.Errno? ==> ring.files == old(ring.files)
      ensures ring.files.Keys == old(ring.files.Keys)
      ensures forall g :: g in ring.files && g != fd ==> ring.files[g] == old(ring.files)[g]
      ensures log == old(log) + if err.NoError? then [Event.Transfer(false, old(fOffset), n)] else []
    {
      n, err, res := Put(false, fOffset, b, len);
    }

    /** ReadAt reads at `o`, but getCqe moves the cursor for it all the same. */
    method ReadAt(b: array<byte>, o: int) returns (n: int, err: Error, ghost res: int)
      requires Tracked() && ring.Valid() && b !in ring.Repr() && b.Length > 0
      modifies this, ring.Repr(), b
      ensures Tracked() && (!err.Hung? ==> ring.Valid()) && (err.Hung? <==> ring.Stalled())
      ensures err == if old(ring.NextFills()) then Hung else ReadError(res)
      ensures ring.posted == old(ring.posted) + [Cqe(ring.idx, res, 0)]
      ensures ring.submitted == old(ring.submitted) + [Sqe(Opcode.Read, fd, o, b.Length, b, ring.idx)]
      ensures err.Errno? ==> err.code > 0 && res == -err.code
      ensures ring.files == old(ring.files) && n == (if err.NoError? then res else 0) && fOffset == old(fOffset) + n
      ensures err.NoError? ==>
                && n <= b.Length && fd in ring.files && 0 <= o && o + n <= |ring.files[fd]|
                && b[..] == ring.files[fd][o..o + n] + old(b[..])[n..]
      ensures err.Eof? ==> fd in ring.files && o >= |ring.files[fd]|
      ensures err.Eof? || err.Errno? ==> b[..] == old(b[..])
      ensures fOffset == old(fOffset) <==> !err.NoError?
      ensures log == old(log) + if err.NoError? || err.Eof? then [Event.Transfer(true, o, n)] else []
    {
      n, err, res := Fetch(true, o, b);
    }

    /** WriteAt writes at `o`, and moves the cursor too. */
    method WriteAt(b: array<byte>, o: int) returns (n: int, err: Error, ghost res: int)
      requires Tracked() && ring.Valid() && b !in ring.Repr() && b.Length > 0
      modifies this, ring.Repr(), b
      ensures Tracked() && (!err.Hung? ==> ring.Valid()) && (err.Hung? <==> ring.Stalled())
      ensures err == if old(ring.NextFills()) then Hung else WriteError(res)
      ensures ring.posted == old(ring.posted) + [Cqe(ring.idx, res, 0)]
      ensures ring.submitted == old(ring.submitted) + [Sqe(Opcode.Write, fd, o, b.Length, b, ring.idx)]
      ensures err.Errno? ==> err.code > 0 && res == -err.code
      ensures b[..] == old(b[..]) && n == (if err.NoError? then res else 0) && fOffset == old(fOffset) + n
      ensures err.NoError? ==>
                && 0 < n <= b.Length && 0 <= o && fd in old(ring.files)
                && ring.files == old(ring.files)[fd := Splice(old(ring.files)[fd], o, b[..n])]
      ensures err.Errno? ==> ring.files == old(ring.files)
      ensures log == old(log) + if err.NoError? then [Event.Transfer(true, o, n)] else []
    {
      n, err, res := Put(true, o, b, b.Length);
    }

    /** Seek. It always returns 0, and from the end it subtracts: it leads where io.Seeker says exactly when it does not
        start at the end or the offset is zero. Only from the end is the file's size looked up, and if that fails
        the cursor stays. */
    method Seek(offset: int, whence: Whence, stat: Stat) returns (pos: int, err: Error)
      requires Tracked()
      modifies this
      ensures Tracked() && pos == 0
      ensures err == match whence
              case Other => UnknownWhence
              case End => if stat.Failed? then Errno(stat.code) else NoError
              case _ => NoError
      ensures fOffset == match whence
              case Start => offset
              case Current => old(fOffset) + offset
              case End => if stat.Failed? then old(fOffset) else stat.size - offset
              case Other => old(fOffset)
      ensures !(whence.End? && stat.Failed?) ==>
                (fOffset == SeekerPosition(old(fOffset), offset, whence, if stat.Failed? then 0 else stat.size)
                 <==> !whence.End? || offset == 0)
    {
      pos, err := 0, NoError;
      match whence
      case Start =>
        FaithfulNext(log, SeekTo(offset));
        fOffset, log := offset, log + [SeekTo(offset)];
      case Current =>
        FaithfulNext(log, SeekBy(offset));
        fOffset, log := fOffset + offset, log + [SeekBy(offset)];
      case End =>
        if stat.Failed? { return 0, Errno(stat.code); }
        FaithfulNext(log, SeekTo(stat.size - offset));
        fOffset, log := stat.size - offset, log + [SeekTo(stat.size - offset)];
      case Other =>
        err := UnknownWhence;
    }
  }

  // ---------- Copying ----------

  datatype Outcome = Finished | Fatal | NeverEnds

  /** How far a copy of `src` has got: everything read so far has been written, unless a write was short. */
  ghost predicate Copied(src: seq<byte>, read: int, copy: seq<byte>, written: int, full: bool) {
    && 0 <= written == |copy| <= read <= |src|
    && (full ==> copy == src[..read]) && (!full ==> written < read)
  }

  lemma CopiedMore(src: seq<byte>, read: int, copy: seq<byte>, written: int, full: bool, b: seq<byte>, n: nat, m: nat)
    requires Copied(src, read, copy, written, full)
    requires m <= n <= |b| && read + n <= |src| && b[..n] == src[read..read + n]
    ensures Copied(src, read + n, copy + b[..m], written + m, full && m == n)
  {
    assert m == n ==> src[..read] + b[..m] == src[..read + n];
  }

  /** Some completion posted after the first `from` is a failure. */
  ghost predicate Failure(posted: seq<Cqe>, from: nat) {
    exists p :: from <= p < |posted| && posted[p].res < 0
  }

  /** Position `p` is a write that did not write all it was asked to. */
  ghost predicate Short(submitted: seq<Sqe>, posted: seq<Cqe>, p: nat) {
    p < |posted| && p < |submitted| && submitted[p].opcode.Write? && posted[p].res != submitted[p].len
  }

  /** Every write after the first `from` entries wrote all it was asked to. */
  ghost predicate Whole(submitted: seq<Sqe>, posted: seq<Cqe>, from: nat) {
    forall p: nat :: from <= p ==> !Short(submitted, posted, p)
  }

  lemma FailureNext(posted: seq<Cqe>, from: nat, c: Cqe)
    requires from <= |posted|
    ensures Failure(posted + [c], from) <==> Failure(posted, from) || c.res < 0
    ensures !Failure(posted, |posted|)
  {
    var longer := posted + [c];
    assert longer[|posted|] == c;
    forall p | from <= p < |posted| ensures longer[p] == posted[p] {
    }
  }

  lemma WholeNext(submitted: seq<Sqe>, posted: seq<Cqe>, from: nat, sqe: Sqe, c: Cqe)
    requires from <= |posted| == |submitted|
    ensures Whole(submitted + [sqe], posted + [c], from)
            <==> Whole(submitted, posted, from) && (sqe.opcode.Write? ==> c.res == sqe.len)
  {
    var last := |posted|;
    forall p: nat ensures Short(submitted + [sqe], posted + [c], p)
                          <==> Short(submitted, posted, p) || (p == last && sqe.opcode.Write? && c.res != sqe.len) {
    }
    assert Short(submitted + [sqe], posted + [c], last) <==> sqe.opcode.Write? && c.res != sqe.len;
  }

  /** The read of the next chunk of `src`. */
  method ReadChunk(r: RingFile, buf: array<byte>, ghost src: seq<byte>, ghost from: nat) returns (n: int, err: Error)
    requires r.ring.Valid() && r.Tracked() && r.fd in r.ring.files && buf.Length > 0 && buf !in r.ring.Repr()
    requires r.ring.files[r.fd] == src && 0 <= r.fOffset <= |src|
    requires from <= |r.ring.posted| && !Failure(r.ring.posted, from)
    modifies r, r.ring.Repr(), buf
    ensures r.Tracked() && r.ring.files == old(r.ring.files) && old(r.ring.posted) <= r.ring.posted
    ensures Whole(r.ring.submitted, r.ring.posted, from) <==> old(Whole(r.ring.submitted, r.ring.posted, from))
    ensures (err.Hung? <==> r.ring.Stalled()) && (err.Hung? ==> !old(r.ring.Clean()))
    ensures !err.Hung? ==> r.ring.Valid() && (err.Errno? <==> Failure(r.ring.posted, from))
    ensures err.NoError? || err.Eof? || err.Errno? || err.Hung?
    ensures err.NoError? || err.Eof? ==> old(r.ring.Clean()) ==> r.ring.Clean()
    ensures r.fOffset == old(r.fOffset) + n
    ensures err.NoError? ==>
              && 0 < n <= buf.Length && r.fOffset <= |src| && buf[..n] == src[old(r.fOffset)..old(r.fOffset) + n]
    ensures !err.NoError? ==> n == 0
    ensures err.Eof? ==> r.fOffset == |src|
  {
    ghost var posted, submitted := r.ring.posted, r.ring.submitted;
    ghost var res;
    n, err, res := r.Read(buf);
    FailureNext(posted, from, Cqe(r.ring.idx, res, 0));
    WholeNext(submitted, posted, from, r.ring.submitted[|submitted|], Cqe(r.ring.idx, res, 0));
  }

  /** The write of a chunk that has just been read from `at` on. */
  method WriteChunk(w: RingFile, buf: array<byte>, n: nat, ghost src: seq<byte>, ghost at: int, ghost from: nat)
    returns (err: Error)
    requires w.ring.Valid() && w.Tracked() && w.fd in w.ring.files && 0 < n <= buf.Length && buf !in w.ring.Repr()
    requires Copied(src, at, w.ring.files[w.fd], w.fOffset, Whole(w.ring.submitted, w.ring.posted, from))
    requires at + n <= |src| && buf[..n] == src[at..at + n]
    requires from <= |w.ring.posted| && !Failure(w.ring.posted, from)
    modifies w, w.ring.Repr(), buf
    ensures w.Tracked() && w.ring.files.Keys == old(w.ring.files.Keys) && old(w.ring.posted) <= w.ring.posted
    ensures forall g :: g in w.ring.files && g != w.fd ==> w.ring.files[g] == old(w.ring.files)[g]
    ensures (err.Hung? <==> w.ring.Stalled()) && (err.Hung? ==> !old(w.ring.Clean()))
    ensures err.NoError? || err.Errno? || err.Hung?
    ensures !err.Hung? ==>
              && w.ring.Valid() && (err.Errno? <==> Failure(w.ring.posted, from))
              && Copied(src, at + n, w.ring.files[w.fd], w.fOffset, Whole(w.ring.submitted, w.ring.posted, from))
    ensures err.NoError? ==> old(w.ring.Clean()) ==> w.ring.Clean()
  {
    ghost var posted, submitted := w.ring.posted, w.ring.submitted;
    ghost var res;
    var m;
    m, err, res := w.Write(buf, n);
    FailureNext(posted, from, Cqe(w.ring.idx, res, 0));
    WholeNext(submitted, posted, from, w.ring.submitted[|submitted|], Cqe(w.ring.idx, res, 0));
    if !err.Hung? {
      CopiedMore(src, at, old(w.ring.files[w.fd]), old(w.fOffset), Whole(submitted, posted, from), buf[..], n, m);
      assert old(w.ring.files[w.fd]) + buf[..0] == old(w.ring.files[w.fd]);
    }
  }

  /** One turn of the loop of the cp example: read a buffer, write what was read, do not look at how much was
      written. `more` says whether to go on. */
  method CopyChunk(r: RingFile, w: RingFile, buf: array<byte>, ghost src: seq<byte>, ghost from: nat)
    returns (more: bool, outcome: Outcome)
    requires r.ring == w.ring && r.ring.Valid() && r.Tracked() && w.Tracked() && r != w && r.fd != w.fd
    requires r.fd in r.ring.files && w.fd in r.ring.files && buf.Length > 0 && buf !in r.ring.Repr()
    requires r.ring.files[r.fd] == src
    requires Copied(src, r.fOffset, r.ring.files[w.fd], w.fOffset, Whole(r.ring.submitted, r.ring.posted, from))
    requires from <= |r.ring.posted| && !Failure(r.ring.posted, from)
    modifies r, w, r.ring.Repr(), buf
    ensures r.ring.files.Keys == old(r.ring.files.Keys) && r.ring.files[r.fd] == src
    ensures r.Tracked() && w.Tracked() && old(r.ring.posted) <= r.ring.posted
    ensures (outcome.NeverEnds? <==> r.ring.Stalled()) && (outcome.NeverEnds? ==> !more && !old(r.ring.Clean()))
    ensures !outcome.NeverEnds? ==>
              && r.ring.Valid() && (outcome.Fatal? <==> Failure(r.ring.posted, from))
              && Copied(src, r.fOffset, r.ring.files[w.fd], w.fOffset, Whole(r.ring.submitted, r.ring.posted, from))
    ensures more ==> outcome.Finished? && r.fOffset > old(r.fOffset) && (old(r.ring.Clean()) ==> r.ring.Clean())
    ensures outcome.Finished? && !more ==> r.fOffset == |src|
  {
    var n, err := ReadChunk(r, buf, src, from);
    more := err.NoError?;
    if more {
      err := WriteChunk(w, buf, n, src, old(r.fOffset), from);
      more := err.NoError?;
    }
    outcome := if err.Hung? then NeverEnds else if err.Errno? then Fatal else Finished;
  }

  /** The loop of the cp example. It stops with a fatal error exactly when one of its own requests has failed; it never
      ends exactly when one of them has filled the ring behind an earlier failure. Otherwise the source is untouched and
      has been read to its end, and the copy equals it if and only if each of its writes wrote all it was asked to. */
  method Copy(r: RingFile, w: RingFile, buf: array<byte>) returns (outcome: Outcome)
    requires r.ring == w.ring && r.ring.Valid() && r.Tracked() && w.Tracked() && r != w
    requires r.fd != w.fd && r.fd in r.ring.files && w.fd in r.ring.files && r.ring.files[w.fd] == []
    requires r.fOffset == 0 && w.fOffset == 0 && buf.Length > 0 && buf !in r.ring.Repr()
    modifies r, w, r.ring.Repr(), buf
    ensures r.ring.files.Keys == old(r.ring.files.Keys) && r.ring.files[r.fd] == old(r.ring.files[r.fd])
    ensures old(r.ring.posted) <= r.ring.posted
    ensures (outcome.NeverEnds? <==> r.ring.Stalled()) && (outcome.NeverEnds? ==> !old(r.ring.Clean()))
    ensures !outcome.NeverEnds? ==>
              && r.ring.Valid() && (outcome.Fatal? <==> Failure(r.ring.posted, |old(r.ring.posted)|))
              && Copied(r.ring.files[r.fd], r.fOffset, r.ring.files[w.fd], w.fOffset,
                        Whole(r.ring.submitted, r.ring.posted, |old(r.ring.posted)|))
    ensures outcome.Finished? ==>
              && r.fOffset == |r.ring.files[r.fd]|
              && (r.ring.files[w.fd] == r.ring.files[r.fd]
                  <==> Whole(r.ring.submitted, r.ring.posted, |old(r.ring.posted)|))
  {
    ghost var src, from := r.ring.files[r.fd], |r.ring.posted|;
    var more := true;
    outcome := Finished;
    while more
      invariant r.ring.files.Keys == old(r.ring.files.Keys) && r.ring.files[r.fd] == src
      invariant r.Tracked() && w.Tracked() && old(r.ring.posted) <= r.ring.posted
      invariant (outcome.NeverEnds? <==> r.ring.Stalled()) && (outcome.NeverEnds? ==> !more && !old(r.ring.Clean()))
      invariant !outcome.NeverEnds? ==>
                  && r.ring.Valid() && (outcome.Fatal? <==> Failure(r.ring.posted, from))
                  && Copied(src, r.fOffset, r.ring.files[w.fd], w.fOffset,
                            Whole(r.ring.submitted, r.ring.posted, from))
      invariant more ==> outcome.Finished? && (old(r.ring.Clean()) ==> r.ring.Clean())
      invariant outcome.Finished? && !more ==> r.fOffset == |src|
      decreases if more then |src| - r.fOffset + 1 else 0
    {
      more, outcome := CopyChunk(r, w, buf, src, from);
    }
  }
}

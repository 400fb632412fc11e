/** The operations of util.c on the state they change: the bytes waiting on a
    channel, the process-wide SIGPIPE disposition and the `sig` flag, and the
    process's credentials, root and current directory.

    read(2), write(2), chroot(2) and chdir(2) are methods of their own whose
    outcome is a parameter, chosen by the environment; signal(3) is a method
    that always succeeds (its SIG_ERR return is not modelled).  The operations
    of util.c call them in the source's order.  The outcome of the allocation
    in readbuf is a boolean parameter, and the credential calls of dropprivs
    are run by Privsep.RunSteps in one step.  ReadOp, ReadBuf, ReadStr,
    WriteOp, WriteBuf, WriteStr and DropPrivs are proved equal to functions of
    modules Frames and Privsep; Sigpipe and DropFs state their effect
    directly. */
module Util {
  import opened Codec
  import opened Comms
  import opened Frames
  import opened Privsep

  /** One end of a pipe: the bytes written into it and not yet read. */
  class Pipe {
    var pending: seq<byte>

    constructor (pending: seq<byte>)
      ensures this.pending == pending
    {
      this.pending := pending;
    }

    /** read(2) of at most n bytes. */
    method Read(n: nat, o: ReadOutcome) returns (ssz: int, got: seq<byte>)
      modifies this
      ensures ssz == ReadCount(old(pending), n, o)
      ensures ssz < 0 ==> got == [] && pending == old(pending)
      ensures ssz >= 0 ==> got == old(pending)[..ssz] && pending == old(pending)[ssz..]
    {
      ssz := ReadCount(pending, n, o);
      if ssz < 0 {
        got := [];
      } else {
        got := pending[..ssz];
        pending := pending[ssz..];
      }
    }
  }

  /** What the process does with SIGPIPE. */
  datatype Disposition =
    | SigDefault             // SIG_DFL: the process is terminated
    | SigIgnore              // SIG_IGN
    | CatchSigpipe           // the `sigpipe` handler of util.c
    | OtherHandler(id: nat)  // a handler installed elsewhere; what it does is not modelled

  const SIGPIPE: int := 13

  /** The process-wide state util.c reads and changes. */
  class Process {
    var disposition: Disposition  // the SIGPIPE disposition
    var sig: bool                 // the file-static flag `sig`
    var terminated: bool          // killed by SIGPIPE
    var ids: Ids
    var root: string              // the directory the process sees as "/"
    var cwd: string               // the current directory

    constructor (disposition: Disposition, ids: Ids, root: string, cwd: string)
      ensures this.disposition == disposition && this.ids == ids
      ensures this.root == root && this.cwd == cwd
      ensures !sig && !terminated
    {
      this.disposition := disposition;
      this.ids := ids;
      this.root := root;
      this.cwd := cwd;
      sig := false;
      terminated := false;
    }

    // -------------------------------------------------------------------
    // System calls

    /** signal(SIGPIPE, h): installs h and returns the disposition it replaces. */
    method Signal(h: Disposition) returns (prev: Disposition)
      modifies this`disposition
      ensures disposition == h && prev == old(disposition)
    {
      prev := disposition;
      disposition := h;
    }

    /** Delivery of SIGPIPE under the current disposition. */
    method RaiseSigpipe()
      modifies this`sig, this`terminated
      ensures sig == (old(sig) || disposition == CatchSigpipe)
      ensures terminated == (old(terminated) || disposition == SigDefault)
    {
      match disposition
      case SigDefault => terminated := true;
      case CatchSigpipe => Sigpipe(SIGPIPE);
      case _ =>
    }

    /** write(2) of data to fd; a write to a channel whose reader is gone
        raises SIGPIPE before it fails. */
    method Write(fd: Pipe, data: seq<byte>, o: WriteOutcome) returns (ssz: int)
      modifies this`sig, this`terminated, fd
      ensures ssz == WriteCount(|data|, o)
      ensures fd.pending == old(fd.pending) + (if ssz < 0 then [] else data[..ssz])
      ensures sig == (old(sig) || (o.WriteBrokenPipe? && disposition == CatchSigpipe))
      ensures terminated == (old(terminated) || (o.WriteBrokenPipe? && disposition == SigDefault))
    {
      ssz := WriteCount(|data|, o);
      if o.WriteBrokenPipe? {
        RaiseSigpipe();
      }
      if ssz >= 0 {
        fd.pending := fd.pending + data[..ssz];
      }
    }

    /** chroot(2); a relative path is not resolved. */
    method Chroot(path: string, ok: bool) returns (rc: int)
      modifies this`root
      ensures rc == (if ok then 0 else -1)
      ensures root == (if ok then path else old(root))
    {
      rc := -1;
      if ok {
        root, rc := path, 0;
      }
    }

    /** chdir(2). */
    method Chdir(path: string, ok: bool) returns (rc: int)
      modifies this`cwd
      ensures rc == (if ok then 0 else -1)
      ensures cwd == (if ok then path else old(cwd))
    {
      rc := -1;
      if ok {
        cwd, rc := path, 0;
      }
    }

    // -------------------------------------------------------------------
    // util.c

    /** The `sigpipe` handler: it only records that SIGPIPE arrived. */
    method Sigpipe(code: int)
      modifies this`sig
      ensures sig
    {
      sig := true;
    }

    /** readop: one `long` from fd. */
    method ReadOp(fd: Pipe, comm: Comm, o: ReadOutcome) returns (r: OpRead)
      modifies fd
      ensures OpGot(r, fd.pending) == ReadOpResult(old(fd.pending), o)
    {
      var ssz, op := fd.Read(W, o);
      if ssz < 0 {
        r := OpFail;                  // "read: <comm>"
      } else if ssz != 0 && ssz != W {
        r := OpFail;                  // "short read: <comm>"
      } else if ssz == 0 {
        r := OpEof;
      } else {
        r := OpValue(DecodeLong(op));
      }
    }

    /** readbuf: a length, then that many bytes, returned with a NUL added. */
    method ReadBuf(fd: Pipe, comm: Comm, olen: ReadOutcome, allocOk: bool, opay: ReadOutcome)
      returns (p: Option<seq<byte>>, sz: nat)
      modifies fd
      ensures BufGot(p, fd.pending) == ReadBufResult(old(fd.pending), olen, allocOk, opay)
      ensures p.Some? ==> |p.value| == sz + 1 && p.value[sz] == 0
    {
      p, sz := None, 0;
      var ssz, len := fd.Read(W, olen);
      if ssz < 0 {
                                      // "read: <comm> length"
      } else if ssz != W {
                                      // "short read: <comm> length"
      } else {
        sz := DecodeSize(len);
        if sz == SIZE_MAX || !allocOk {
                                      // "malloc": no room for sz + 1 bytes
        } else {
          var got, payload := fd.Read(sz, opay);
          if got < 0 {
                                      // "read: <comm>"
          } else if got != sz {
                                      // "short read: <comm>"
          } else {
            p := Some(payload + [0]);
          }
        }
      }
    }

    /** readstr: readbuf without the length. */
    method ReadStr(fd: Pipe, comm: Comm, olen: ReadOutcome, allocOk: bool, opay: ReadOutcome)
      returns (p: Option<seq<byte>>)
      modifies fd
      ensures BufGot(p, fd.pending) == ReadBufResult(old(fd.pending), olen, allocOk, opay)
    {
      var sz;
      p, sz := ReadBuf(fd, comm, olen, allocOk, opay);
    }

    /** writeop: one `long` to fd, with SIGPIPE caught for the duration. */
    method WriteOp(fd: Pipe, comm: Comm, op: int, o: WriteOutcome) returns (rc: bool)
      requires IsLong(op)
      modifies this`disposition, this`sig, this`terminated, fd
      ensures var r := WriteOpResult(op, o);
        rc == r.ok && fd.pending == old(fd.pending) + r.bytes
      ensures disposition == old(disposition)
      ensures sig == (old(sig) || WriteOpRaises(o))
      ensures terminated == old(terminated)
    {
      rc := false;
      var saved := Signal(CatchSigpipe);  // the local `sig`, shadowing the flag
      var ssz := Write(fd, EncodeLong(op), o);
      if ssz < 0 {
                                          // "write: <comm>"
      } else if ssz != W {
                                          // "short write: <comm>"
      } else {
        rc := true;
      }
      var _ := Signal(saved);
      saved := SigDefault;                // `sig = 0` clears the local, not the flag
    }

    /** writebuf: the length sz, then the first sz bytes of v, with SIGPIPE
        caught for the duration. */
    method WriteBuf(fd: Pipe, comm: Comm, v: seq<byte>, sz: nat, o1: WriteOutcome, o2: WriteOutcome)
      returns (rc: bool)
      requires sz <= |v| && sz <= SIZE_MAX
      modifies this`disposition, this`sig, this`terminated, fd
      ensures var r := WriteBufResult(v[..sz], o1, o2);
        rc == r.ok && fd.pending == old(fd.pending) + r.bytes
      ensures disposition == old(disposition)
      ensures sig == (old(sig) || WriteBufRaises(o1, o2))
      ensures terminated == old(terminated)
    {
      rc := false;
      var saved := Signal(CatchSigpipe);  // the local `sig`, shadowing the flag
      var ssz := Write(fd, EncodeSize(sz), o1);
      if ssz < 0 {
                                          // "write: <comm> length"
      } else if ssz != W {
                                          // "short write: <comm> length"
      } else {
        ssz := Write(fd, v[..sz], o2);
        if ssz < 0 {
                                          // "write: <comm>"
        } else if ssz != sz {
                                          // "short write: <comm>"
        } else {
          rc := true;
        }
      }
      var _ := Signal(saved);
      saved := SigDefault;                // `sig = 0` clears the local, not the flag
    }

    /** writestr: writebuf of a NUL-terminated string, without its terminator. */
    method WriteStr(fd: Pipe, comm: Comm, v: seq<byte>, o1: WriteOutcome, o2: WriteOutcome)
      returns (rc: bool)
      requires 0 in v && Strlen(v) <= SIZE_MAX
      modifies this`disposition, this`sig, this`terminated, fd
      ensures var r := WriteBufResult(v[..Strlen(v)], o1, o2);
        rc == r.ok && fd.pending == old(fd.pending) + r.bytes
      ensures disposition == old(disposition)
      ensures sig == (old(sig) || WriteBufRaises(o1, o2))
      ensures terminated == old(terminated)
    {
      rc := WriteBuf(fd, comm, v, Strlen(v), o1, o2);
    }

    /** dropfs: chroot(path), then chdir("/"); the second call is made only
        when the first succeeds. */
    method DropFs(path: string, chrootOk: bool, chdirOk: bool) returns (ok: bool)
      modifies this`root, this`cwd
      ensures ok <==> chrootOk && chdirOk
      ensures root == (if chrootOk then path else old(root))
      ensures cwd == (if chrootOk && chdirOk then "/" else old(cwd))
    {
      var rc := Chroot(path, chrootOk);
      if rc == -1 {
        return false;                     // "<path>: chroot"
      }
      rc := Chdir("/", chdirOk);
      if rc == -1 {
        return false;                     // "/: chdir"
      }
      return true;
    }

    /** dropprivs: the platform's calls in order, stopping at the first that
        fails, then the check of the live real and effective ids. */
    method DropPrivs(p: Platform, uid: nat, gid: nat, calls: seq<Call>) returns (ok: bool)
      requires |calls| == |Steps(p)|
      modifies this`ids
      ensures ids == RunSteps(Steps(p), calls, old(ids), uid, gid).ids
      ensures ok == DropSucceeds(p, old(ids), uid, gid, calls)
      ensures ok ==> Verified(ids, uid, gid)
    {
      var run := RunSteps(Steps(p), calls, ids, uid, gid);
      ids := run.ids;
      if run.failed {
        return false;                     // "drop privileges"
      }
      if ids.rgid != gid || ids.egid != gid {
        return false;                     // "failed to drop gid"
      }
      if ids.ruid != uid || ids.euid != uid {
        return false;                     // "failed to drop uid"
      }
      return true;
    }
  }
}

/** Two processes exchanging frames over one fresh pipe: what the writer's
    operations put on it is what the reader's operations take off it. */
module Exchange {
  import opened Codec
  import opened Comms
  import opened Frames
  import opened Privsep
  import opened Util

  /** writeop on one end, then readop on the other.  A complete write read in
      full yields the value sent, and no value is ever read from a write that
      did not complete. */
  method OpExchange(x: int, ow: WriteOutcome, or: ReadOutcome) returns (rc: bool, got: OpRead)
    requires IsLong(x)
    ensures rc <==> Completes(ow, W)
    ensures rc && or.ReadUpTo? && W <= or.limit ==> got == OpValue(x)
    ensures got.OpValue? ==> rc && got == OpValue(x)
  {
    var writer := new Process(SigDefault, Ids(0, 0, 0, 0, 0, 0, []), "/", "/");
    var reader := new Process(SigDefault, Ids(0, 0, 0, 0, 0, 0, []), "/", "/");
    var fd := new Pipe([]);
    rc := writer.WriteOp(fd, ChngOp, x, ow);
    ghost var sent := fd.pending;
    got := reader.ReadOp(fd, ChngOp, or);
    if rc {
      assert sent == EncodeLong(x) + [];
      if or.ReadUpTo? && W <= or.limit {
        OpRoundTrip(x, [], ow, or);
      }
      if got.OpValue? {
        assert sent[..W] == EncodeLong(x);
        LongRoundTrip(x);
      }
    }
  }

  /** writebuf on one end, then readbuf on the other.  A complete write read
      in full yields the payload and its length.  A buffer is read from a
      write that reported failure only when the payload was empty and the
      write of those zero bytes failed: the frame was whole all the same. */
  method BufExchange(v: seq<byte>, o1: WriteOutcome, o2: WriteOutcome, olen: ReadOutcome,
                     opay: ReadOutcome) returns (rc: bool, p: Option<seq<byte>>, sz: nat)
    requires |v| < SIZE_MAX
    ensures rc <==> Completes(o1, W) && Completes(o2, |v|)
    ensures rc && olen.ReadUpTo? && W <= olen.limit && opay.ReadUpTo? && |v| <= opay.limit
            ==> p == Some(v + [0]) && sz == |v|
    ensures p.Some? ==> (rc || v == []) && p == Some(v + [0]) && sz == |v|
  {
    var writer := new Process(SigDefault, Ids(0, 0, 0, 0, 0, 0, []), "/", "/");
    var reader := new Process(SigDefault, Ids(0, 0, 0, 0, 0, 0, []), "/", "/");
    var fd := new Pipe([]);
    assert v[..|v|] == v;
    rc := writer.WriteBuf(fd, Cert, v, |v|, o1, o2);
    ghost var sent := WriteBufResult(v, o1, o2);
    assert fd.pending == [] + sent.bytes == sent.bytes;
    p, sz := reader.ReadBuf(fd, Cert, olen, true, opay);
    assert p == ReadBufResult(sent.bytes, olen, true, opay).buf;
    if rc && olen.ReadUpTo? && W <= olen.limit && opay.ReadUpTo? && |v| <= opay.limit {
      BufWrittenThenRead(v, o1, o2, olen, opay);
    }
    if p.Some? {
      BufReadOnlyFromWholeFrame(v, o1, o2, olen, opay);
    }
  }
}

# util.c of acme-client, modelled in Dafny

acme-client splits certificate issuance across processes that each hold one
privilege and talk over pipes. `util.c` is the layer they share:

- a frame codec: `readop`/`writeop` move one native `long`; `readbuf`/`readstr`
  and `writebuf`/`writestr` move a `size_t` length followed by that many bytes,
  and the receiver's copy gets a NUL terminator;
- a SIGPIPE guard: both write paths install the `sigpipe` handler, which only
  sets the file-static flag `sig`, and restore the previous disposition;
- `checkexit`, which judges how a reaped child ended;
- `dropfs` (chroot, then `chdir("/")`) and `dropprivs` (groups, then group ids,
  then user ids, then a check of the live ids).

The model is in six files:

- `codec.dfy` (module `Codec`): `long` and `size_t` as W-byte words (W = 8),
  two's complement for `long`, with encode/decode proved inverse both ways.
- `comms.dfy` (module `Comms`): the channel identities and the `comms` name table.
- `frames.dfy` (module `Frames`): what each frame operation does to a channel,
  stated as functions. A channel is the queue of bytes written and not yet
  read. Each read(2) or write(2) has an outcome the environment chooses: it
  fails, it hits a closed reader (writes only), or it transfers at most a given
  number of bytes. The file also holds the round-trip and truncation lemmas.
- `supervisor.dfy` (module `Supervisor`): `checkexit` on the result of `waitpid`.
- `privsep.dfy` (module `Privsep`): the drop-privileges algorithm over a list of
  credential calls, one list per platform, and the lemmas about it.
- `util.dfy` (modules `Util` and `Exchange`): class `Pipe` (one channel end)
  and class `Process` (SIGPIPE disposition, `sig`, termination, credentials,
  root, current directory). `ReadOp`, `ReadBuf`, `ReadStr`, `WriteOp`,
  `WriteBuf`, `WriteStr` and `DropPrivs` model the util.c functions of those
  names and are proved equal to functions of `Frames` and `Privsep`;
  `Sigpipe` and `DropFs` state their effect directly. `Read`, `Write`,
  `Signal`, `RaiseSigpipe`, `Chroot` and `Chdir` are system-call methods, not
  util.c functions; the util.c methods call them in the source's order. The credential calls are not: `DropPrivs` takes the
  credentials `Privsep.RunSteps` leaves in one step and then makes the
  closing check. The allocation in `readbuf` is a boolean parameter saying
  whether it succeeds. `Exchange` runs a writer and a reader over one pipe.

## Model

| member | source | states |
|---|---|---|
| Codec.EncodeSize | util.c:155 | a length field is exactly W bytes |
| Codec.DecodeSize | util.c:98 | W bytes decode to a value no larger than SIZE_MAX |
| Codec.EncodeLong | util.c:131 | an operation frame is exactly W bytes |
| Codec.DecodeLong | util.c:69 | W bytes decode to a value within LONG_MIN..LONG_MAX |
| Codec.ValueOfDigits | util.c:69 | reading back the W digits of a number below 256^W gives the number |
| Codec.DigitsOfValue | util.c:131 | re-encoding the number W bytes stand for gives the same bytes |
| Codec.SizeRoundTrip | util.c:98 | decoding an encoded length gives the length back |
| Codec.SizeBytesRoundTrip | util.c:155 | every W-byte length field is the encoding of the value it decodes to |
| Codec.LongRoundTrip | util.c:69 | decoding an encoded `long` gives the value back, negative values included |
| Codec.LongBytesRoundTrip | util.c:131 | every W-byte operation frame is the encoding of the value it decodes to |
| Comms.Index | util.c:35-48 | every channel identity indexes inside the 12-entry `comms` table |
| Comms.NamesIdentify | util.c:35-48 | two identities share a diagnostic name only if they are the same identity |
| Frames.ReadOpResult | util.c:63-80 | readop yields a value iff the read hands over all W bytes, decoded from the front of the channel with W bytes consumed; EOF iff the read hands over nothing, with nothing consumed; failure otherwise (read error, or 1..W-1 bytes) |
| Frames.OpLong | util.c:72-79 | the `long` readop returns is the value received, 0 exactly for a received 0 or end of channel, and LONG_MAX exactly for a received LONG_MAX or failure |
| Frames.SentinelCollision | util.c:58-79 | the `long` readop returns confuses two distinct outcomes iff they are value 0 and EOF, or value LONG_MAX and failure |
| Frames.TruncatedOpFails | util.c:73-75 | an operation frame cut to 1..W-1 bytes reads as failure |
| Frames.OpRoundTrip | util.c:131 | bytes of a complete writeop of x, read in full, yield x and leave the rest of the channel; the `long` returned is x |
| Frames.WriteOpResult | util.c:120-142 | writeop succeeds iff the write takes all W bytes; the channel gets the encoding of the value on success and a prefix of it, shorter than W, otherwise |
| Frames.AllocSize | util.c:102 | the size `*sz + 1` passed to calloc, in `size_t` arithmetic: below 2^64, and sz + 1 except at SIZE_MAX, where it is 0 |
| Frames.AllocSizeWraps | util.c:102 | in `size_t` arithmetic `*sz + 1` covers the payload and terminator iff the length is below SIZE_MAX; at SIZE_MAX it is 0 |
| Frames.ReadBufResult | util.c:90-113 | readbuf yields a buffer iff all W length bytes are read, the length is below SIZE_MAX, allocation succeeds and all the payload bytes are read; the buffer is the payload plus a NUL and exactly the frame is consumed; the bytes left are always a suffix of the channel |
| Frames.WriteBufResult | util.c:144-170 | writebuf succeeds iff the length write and then the payload write both complete; on success the channel gets the length encoding followed by the payload, otherwise a prefix of that; a length write that does not complete puts fewer than W bytes |
| Frames.BufRoundTrip | util.c:98-109 | bytes of a complete writebuf of v, read in full, yield v plus NUL and leave the rest of the channel |
| Frames.BufWrittenThenRead | util.c:144-170 | on a channel holding only what one complete writebuf put there, a read in full yields the payload plus NUL |
| Frames.BufReadOnlyFromWholeFrame | util.c:98-109 | a buffer read from a channel holding only what one writebuf put there is always the payload plus NUL, and it comes from a write that reported failure only when the payload is empty |
| Frames.TruncatedBufFails | util.c:98-107 | a buffer frame cut anywhere before its last byte yields no buffer, whatever the read and allocation outcomes |
| Frames.Strlen | util.c:176 | the length is the index of the first NUL |
| Frames.StrRoundTrip | util.c:172-177 | a string sent by writestr and read back in full is the same C string, terminator included |
| Supervisor.CheckExit | util.c:182-204 | checkexit succeeds iff waitpid succeeds and the child exited normally with EXIT_SUCCESS |
| Supervisor.Diagnose | util.c:187-199 | a failed wait gives the waitpid report; a child that did not exit normally gives the bad-exit report, naming its signal when it was signalled; a normal exit with another code gives the bad-exit-code report |
| Privsep.Steps | util.c:232-246 | both platforms start by setting the group list |
| Privsep.RunSteps | util.c:233-245 | the run reports failure iff some call fails |
| Privsep.Verified | util.c:248-255 | the closing check holds iff every real and effective id, group and user, equals its target; the saved ids are not looked at |
| Privsep.DropSucceeds | util.c:228-258 | dropprivs succeeds only if no call failed and every checked id left by the calls equals its target |
| Privsep.StopsAtFirstFailure | util.c:240-245 | after the first failing call no later call is made: the credentials are those left by the calls before it |
| Privsep.UnsetFieldKept | util.c:240-242 | an id that no call sets with effect keeps its value |
| Privsep.SilentCallRejected | util.c:248-255 | if every call that could set a checked id failed or returned success without effect, and the id was not already the target, dropprivs fails |
| Privsep.AllCallsTakeEffect | util.c:228-258 | when every call takes effect, dropprivs succeeds on both platforms and every id (saved ones included) is the target and the group list is just the target group |
| Privsep.GroupsBeforeUser | util.c:240-242 | on both platforms every group-id call precedes every user-id call |
| Privsep.SavedUidNotChecked | util.c:248-255 | the closing check can pass while the saved user id is still 0 |
| Privsep.GroupsNotChecked | util.c:233-255 | the closing check can pass on OpenBSD while the group list still holds a group other than the target |
| Util.Process.Sigpipe | util.c:50-56 | the handler sets the flag and nothing else |
| Util.Process.ReadOp | util.c:63-80 | the outcome and the bytes left on the channel are those of ReadOpResult |
| Util.Process.ReadBuf | util.c:90-113 | the buffer and the bytes left are those of ReadBufResult; a returned buffer has sz + 1 bytes and byte sz is 0 |
| Util.Process.ReadStr | util.c:82-88 | returns the buffer readbuf returns, with the same effect on the channel |
| Util.Process.WriteOp | util.c:120-142 | result and appended bytes as WriteOpResult; SIGPIPE disposition on exit equals that on entry; `sig` is set iff it was set or the write hit a closed reader, never cleared; the process is never terminated, whatever the disposition on entry |
| Util.Process.WriteBuf | util.c:144-170 | result and appended bytes as WriteBufResult on the first sz bytes; disposition restored; `sig` set iff it was or a write that was made hit a closed reader; the process is never terminated |
| Util.Process.WriteStr | util.c:172-177 | writebuf of the bytes before the first NUL, with the same guarantees |
| Util.Process.DropFs | util.c:210-222 | succeeds iff chroot and then chdir succeed; the root changes iff chroot succeeds; the current directory becomes "/" only when both succeed, so chdir is never made after a failed chroot |
| Util.Process.DropPrivs | util.c:228-258 | the credentials are those RunSteps leaves; the result is true iff no call failed and real and effective group and user ids all equal the targets |
| Exchange.OpExchange | util.c:121-141 | writeop then readop over a fresh pipe: a complete write read in full yields the value, and a value is read only from a complete write |
| Exchange.BufExchange | util.c:144-170 | writebuf then readbuf over a fresh pipe: a complete write read in full yields the payload and its length; a buffer read from a write that reported failure can only be an empty one |

## Left out

- System calls are not executed. `read`, `write`, `waitpid`, `chroot`, `chdir`, `setgroups` and the `set*id` calls are methods or parameters whose outcome the caller chooses. `signal` is a method that always succeeds: its `SIG_ERR` return is not modelled, since `signal(SIGPIPE, ...)` names a valid signal and cannot fail. Blocking, kernel pipe semantics and real privilege semantics are not modelled. A read may hand over fewer bytes than are waiting, which covers more cases than a kernel produces.
- A successful credential call has the effect its manual page gives for a privileged process (`setgid` and `setuid` set real, effective and saved ids). Other call outcomes are failure, or a return of 0 with no change.
- Diagnostics (`dowarn`, `dowarnx`), their text, `compname` and the `sys_signame` lookup are not modelled. The comments in `util.dfy` mark where each report is made. `compname` and `extern.h` are not part of this model; the number of channel identities, 12, is taken from the twelve entries of the `comms` table at util.c:36-47.
- Native byte order and the real sizes of `long` and `size_t`: both are W = 8 bytes, least significant byte first.
- The `#if __OpenBSD__` branch is not reproduced. The two call sequences are two lists of steps run by one algorithm.
- Asynchronous signal delivery, concurrency and the cross-process topology. SIGPIPE is delivered only while a write hits a closed reader. A handler installed elsewhere (`OtherHandler`) is assumed to have no effect on the modelled state.
- Memory: `calloc`'s zeroing, `free` and pointer ownership. Buffers are values; a failed readbuf returns no buffer.
- `checkexit` takes the result of `waitpid` as input; reaping the child is not modelled. The wait status is an abstract classification, not the encoded integer.
- `chroot` with a relative path is not resolved against the current directory.
- Util.Process.ReadBuf: says nothing about `sz` when no buffer is returned. The source may leave its length field partly overwritten there, and callers do not read it.
- Util.Process.ReadBuf and Frames.ReadBufResult follow the corrected behaviour for a length field of SIZE_MAX, not the code as written: they refuse that length as a failed allocation and read no payload. As written, util.c:102-104 allocates a buffer of 0 bytes and then reads up to SIZE_MAX bytes into it (see Findings; `Frames.AllocSize` models the wrapped size).
- The source's `sig = 0` in `writeop` and `writebuf` clears their local copy of the previous handler, which shadows the file-static flag. The model keeps that: the flag is set only by the handler and never cleared.
- `writebuf` with sz = 0: if the zero-byte payload write fails, writebuf reports failure, yet the whole frame (the length alone) is on the channel and the reader gets an empty buffer. `Exchange.BufExchange` states this case. A length write that succeeds before a failing payload write leaves the channel out of step; the source offers no way to recover.
- Four things a caller might expect do not hold of util.c, and the model keeps the code's behaviour. The closing check does not look at the supplementary group list, so a `setgroups` that returns 0 without effect goes unnoticed (`Privsep.GroupsNotChecked`). The closing check of `dropprivs` reads only real and effective ids, not saved ones (`Privsep.SavedUidNotChecked`). A call that "succeeds" without effect is caught only if no later call sets the same id (`Privsep.SilentCallRejected`). `dropfs` does not check its own effect.

## Findings

| source | as written | input that shows it | evidently intended | confidence | as-written member | corrected member |
|---|---|---|---|---|---|---|
| util.c:102 | `calloc(1, *sz + 1)` computes the size in `size_t`, and the received length has no upper bound | a length field of SIZE_MAX (all W bytes 0xff): the size wraps to 0, then the payload read asks for SIZE_MAX bytes into that buffer | a buffer of sz + 1 bytes, or failure when that size cannot be represented | not executed; medium | Frames.AllocSizeWraps | Frames.ReadBufResult |

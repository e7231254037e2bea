/**
 * fw-download: the loop that splits a firmware image into Firmware Image
 * Download commands (NVM Express 1.2, section 5.11), one per transfer.
 *
 * Each command carries the transfer's length in bytes, its number of dwords
 * minus one in cdw10 (NUMD) and its dword offset into the image in cdw11
 * (OFST). The ioctl each command goes through is the parameter `respond`:
 * the value it returns for the k-th command submitted.
 */
module Firmware {
  import opened Bits
  import opened Command

  /** The transfer size used when none is given or the given one is not a multiple of 4096. */
  const DEFAULT_XFER: u32 := 4096

  /**
   * The transfer size the loop starts with. A size that is not a multiple
   * of 4096 becomes 4096; so does 0, which would otherwise never move the
   * loop forward (see NormalizeXferAsWritten).
   */
  function NormalizeXfer(xfer: u32): (r: u32)
    ensures r > 0 && r % 4096 == 0
    ensures xfer > 0 && xfer % 4096 == 0 ==> r == xfer
    ensures xfer == 0 || xfer % 4096 != 0 ==> r == DEFAULT_XFER
  {
    if xfer % 4096 != 0 || xfer == 0 then DEFAULT_XFER else xfer
  }

  /** The check as written: only `xfer_size % 4096` is looked at, and 0 passes it. */
  function NormalizeXferAsWritten(xfer: u32): (r: u32)
    ensures r % 4096 == 0
    ensures xfer != 0 ==> r == NormalizeXfer(xfer)
  {
    if xfer % 4096 != 0 then DEFAULT_XFER else xfer
  }

  /** `min(xfer_size, fw_size)`: the length of the next transfer. */
  function ChunkLen(xfer: nat, remaining: nat): (r: nat)
    ensures r <= xfer && r <= remaining && (r == xfer || r == remaining)
    ensures xfer > 0 && remaining > 0 ==> r > 0
  {
    if xfer > remaining then remaining else xfer
  }

  /** One Firmware Image Download command: `len` bytes at byte `offset` of the image. */
  function ChunkCommand(len: u32, offset: u32): (d: Descriptor)
    ensures OnlyDriverFields(d) && d.opcode == ADMIN_DOWNLOAD_FW && d.nsid == 0
    ensures d.dataLen == len && d.cdw11 == Shr2(offset)
    ensures len >= 4 ==> d.cdw10 == Shr2(len) - 1
    ensures len < 4 ==> d.cdw10 == 0xffff_ffff
  {
    Zeroed.(opcode := ADMIN_DOWNLOAD_FW, dataLen := len, cdw10 := Sub32(Shr2(len), 1),
            cdw11 := Shr2(offset))
  }

  /**
   * The commands the loop submits, when every one of them succeeds, for
   * `size` bytes still to send at byte `offset`, with transfer size `xfer`.
   * The loop narrows `xfer_size` itself to the chunk it just sent, and so
   * does this definition.
   */
  function Plan(size: nat, xfer: nat, offset: nat): (plan: seq<Descriptor>)
    requires xfer > 0 && offset + size < U32_LIMIT
    ensures |plan| == 0 <==> size == 0
    decreases size
  {
    if size == 0 then []
    else
      var len := ChunkLen(xfer, size);
      [ChunkCommand(len, offset)] + Plan(size - len, len, offset + len)
  }

  /** Total bytes described by a sequence of commands. */
  function Bytes(s: seq<Descriptor>): nat
  {
    if s == [] then 0 else s[0].dataLen + Bytes(s[1..])
  }

  /**
   * The plan covers the image exactly: its lengths add up to the size, every
   * transfer is non-empty and at most `xfer`, and every transfer but the last
   * is exactly `xfer` long.
   */
  lemma {:induction false} PlanCoversImage(size: nat, xfer: nat, offset: nat)
    requires xfer > 0 && offset + size < U32_LIMIT
    ensures Bytes(Plan(size, xfer, offset)) == size
    ensures forall k :: 0 <= k < |Plan(size, xfer, offset)| ==>
              0 < Plan(size, xfer, offset)[k].dataLen <= xfer
    ensures forall k :: 0 <= k < |Plan(size, xfer, offset)| - 1 ==>
              Plan(size, xfer, offset)[k].dataLen == xfer
    decreases size
  {
    if size > 0 {
      var len := ChunkLen(xfer, size);
      var rest := Plan(size - len, len, offset + len);
      PlanCoversImage(size - len, len, offset + len);
      var plan := Plan(size, xfer, offset);
      assert plan[1..] == rest;
      forall k | 0 <= k < |plan| - 1
        ensures plan[k].dataLen == xfer
      {
        if k > 0 {
          // A second transfer exists only when the first one was a full `xfer`.
          assert len < size;
          assert plan[k] == rest[k - 1];
        }
      }
    }
  }

  /** One step of the plan: the first command, then the plan for what is left. */
  lemma PlanStep(size: nat, xfer: nat, offset: nat)
    requires xfer > 0 && offset + size < U32_LIMIT && size > 0
    ensures var len := ChunkLen(xfer, size);
            Plan(size, xfer, offset) == [ChunkCommand(len, offset)] + Plan(size - len, len, offset + len)
  {
  }

  /** The first command of an aligned plan starts at `offset` and carries a whole number of dwords. */
  lemma PlanHead(size: nat, xfer: nat, offset: nat)
    requires xfer > 0 && offset + size < U32_LIMIT && size > 0
    requires DwordAligned(size) && DwordAligned(xfer) && DwordAligned(offset)
    ensures var head := Plan(size, xfer, offset)[0];
            4 * head.cdw11 == offset && DwordAligned(head.dataLen) && head.dataLen >= 4 &&
            4 * (head.cdw10 + 1) == head.dataLen
  {
    var len := ChunkLen(xfer, size);
    PlanStep(size, xfer, offset);
    assert Plan(size, xfer, offset)[0] == ChunkCommand(len, offset);
    assert DwordAligned(len) && len > 0;
    assert len >= 4;
    assert 4 * Shr2(offset) == offset;
    assert 4 * Shr2(len) == len;
  }

  /**
   * Each command's offset is the number of bytes sent before it, in dwords,
   * and its NUMD is its own length in dwords minus one (for a dword-aligned
   * image, transfer size and start).
   */
  lemma {:induction false} PlanOffsets(size: nat, xfer: nat, offset: nat, k: nat)
    requires xfer > 0 && offset + size < U32_LIMIT
    requires DwordAligned(size) && DwordAligned(xfer) && DwordAligned(offset)
    requires k < |Plan(size, xfer, offset)|
    ensures 4 * Plan(size, xfer, offset)[k].cdw11 == offset + Bytes(Plan(size, xfer, offset)[..k])
    ensures DwordAligned(Plan(size, xfer, offset)[k].dataLen)
    ensures 4 * (Plan(size, xfer, offset)[k].cdw10 + 1) == Plan(size, xfer, offset)[k].dataLen
    decreases size
  {
    var plan := Plan(size, xfer, offset);
    if k == 0 {
      PlanHead(size, xfer, offset);
      assert plan[..k] == [];
    } else {
      var len := ChunkLen(xfer, size);
      var rest := Plan(size - len, len, offset + len);
      assert DwordAligned(len);
      AlignedSum(size, len);
      AlignedSum(offset, len);
      PlanOffsets(size - len, len, offset + len, k - 1);
      assert plan[k] == rest[k - 1] && plan[..k] == [plan[0]] + rest[..k - 1] && plan[0].dataLen == len by {
        PlanStep(size, xfer, offset);
      }
      assert Bytes(plan[..k]) == len + Bytes(rest[..k - 1]);
    }
  }

  /** How a download ends. */
  datatype DownloadResult =
    | Completed                 // every transfer returned 0
    | DeviceError(status: int)  // a transfer returned an NVMe status; the loop stopped there
    | HostExit(err: int)        // the ioctl failed; the program exits
    | Rejected(error: Errno)    // refused before anything was sent

  /**
   * The outcome of submitting `plan` from its i-th command on, when the k-th
   * ioctl returns `respond(k)`: the first non-zero return ends the run, and
   * the commands submitted are the plan up to and including that one.
   */
  function Outcome(plan: seq<Descriptor>, respond: nat -> i32, i: nat): (DownloadResult, seq<Descriptor>)
    requires i <= |plan|
    decreases |plan| - i
  {
    if i == |plan| then (Completed, plan)
    else if respond(i) < 0 then (HostExit(respond(i)), plan[..i + 1])
    else if respond(i) > 0 then (DeviceError(respond(i)), plan[..i + 1])
    else Outcome(plan, respond, i + 1)
  }

  /**
   * What a run promises: it submits a prefix of the plan; every command but
   * the last one submitted succeeded; it completes exactly when all of the
   * plan succeeded, and otherwise reports the return of the last command.
   */
  lemma {:induction false} OutcomeMeaning(plan: seq<Descriptor>, respond: nat -> i32, i: nat)
    requires i <= |plan|
    requires forall k :: 0 <= k < i ==> respond(k) == 0
    ensures var (r, sent) := Outcome(plan, respond, i);
            i <= |sent| && sent <= plan && !r.Rejected? &&
            (forall k :: 0 <= k < |sent| - 1 ==> respond(k) == 0) &&
            (r.Completed? <==> sent == plan && forall k :: 0 <= k < |plan| ==> respond(k) == 0) &&
            (r.DeviceError? ==> |sent| > 0 && r.status == respond(|sent| - 1) && r.status > 0) &&
            (r.HostExit? ==> |sent| > 0 && r.err == respond(|sent| - 1) && r.err < 0)
    decreases |plan| - i
  {
    if i < |plan| && respond(i) == 0 {
      OutcomeMeaning(plan, respond, i + 1);
    } else if i < |plan| {
      assert Outcome(plan, respond, i).1 == plan[..i + 1];
    }
  }

  /** `(a + [c]) + r == a + ([c] + r)`, and `a + [c]` is the prefix of that sequence. */
  lemma Regroup(a: seq<Descriptor>, c: Descriptor, r: seq<Descriptor>)
    ensures a + ([c] + r) == (a + [c]) + r
    ensures (a + ([c] + r))[..|a| + 1] == a + [c]
  {
  }

  /**
   * fw-download. `image` is the size of the opened firmware file, or None
   * when no file was opened; `xfer` the requested transfer size. The offset
   * always starts at 0. Returns how the run ended and every command it
   * submitted, in order, the failing one included: exactly the outcome of
   * the plan for the image (see OutcomeMeaning).
   */
  method Download(image: Option<u32>, xfer: u32, respond: nat -> i32)
    returns (r: DownloadResult, sent: seq<Descriptor>)
    ensures image.None? || !DwordAligned(image.value) ==> r == Rejected(EINVAL) && sent == []
    ensures image.Some? && DwordAligned(image.value) ==>
              (r, sent) == Outcome(Plan(image.value, NormalizeXfer(xfer), 0), respond, 0)
  {
    if image.None? || !DwordAligned(image.value) {
      return Rejected(EINVAL), [];
    }
    var size: u32 := image.value;
    var xferSize: u32 := NormalizeXfer(xfer);
    var offset: u32 := 0;
    ghost var plan := Plan(image.value, xferSize, 0);
    sent := [];
    while size > 0
      invariant xferSize > 0 && offset + size == image.value
      invariant plan == sent + Plan(size, xferSize, offset)
      invariant Outcome(plan, respond, 0) == Outcome(plan, respond, |sent|)
      decreases size
    {
      var len := ChunkLen(xferSize, size);
      var cmd := ChunkCommand(len, offset);
      PlanStep(size, xferSize, offset);
      ghost var rest := Plan(size - len, len, offset + len);
      var err := respond(|sent|);
      Regroup(sent, cmd, rest);
      sent := sent + [cmd];
      if err < 0 {
        return HostExit(err), sent;
      } else if err != 0 {
        return DeviceError(err), sent;
      }
      xferSize, size, offset := len, size - len, offset + len;
    }
    assert sent == plan;
    return Completed, sent;
  }

  /**
   * The zero transfer size as written: it passes the `% 4096` check, every
   * transfer is then `min(0, fw_size) == 0` bytes long, the remaining size
   * never shrinks, and each command asks for 0xffffffff + 1 dwords.
   */
  lemma XferZeroNeverProgresses(size: u32)
    requires size > 0
    ensures NormalizeXferAsWritten(0) == 0
    ensures ChunkLen(NormalizeXferAsWritten(0), size) == 0
    ensures size - ChunkLen(NormalizeXferAsWritten(0), size) == size
  {
  }

  /** `n` copies of the command `c`. */
  function Repeated(c: Descriptor, n: nat): (s: seq<Descriptor>)
    ensures |s| == n && forall k :: 0 <= k < n ==> s[k] == c
  {
    seq(n, _ => c)
  }

  /**
   * fw-download as written with `--xfer=0`, cut off after `turns` passes of
   * its loop, since as written nothing but a failing command ends it. For a
   * non-empty image every pass submits the same 0-byte command at offset 0
   * (NUMD 0xffffffff); the run stops at the first non-zero return, and
   * `None` means it was still running after `turns` passes.
   */
  method ZeroXferLoop(image: Option<u32>, respond: nat -> i32, turns: nat)
    returns (r: Option<DownloadResult>, sent: seq<Descriptor>)
    ensures image.None? || !DwordAligned(image.value) ==> r == Some(Rejected(EINVAL)) && sent == []
    ensures image == Some(0) ==> r == Some(Completed) && sent == []
    ensures image.Some? && image.value > 0 && DwordAligned(image.value) ==>
              var (res, s) := Outcome(Repeated(ChunkCommand(0, 0), turns), respond, 0);
              sent == s && r == (if res.Completed? then None else Some(res))
    ensures image.Some? && image.value > 0 && DwordAligned(image.value) ==>
              r != Some(Completed) && |sent| <= turns &&
              (forall k :: 0 <= k < |sent| ==> sent[k] == ChunkCommand(0, 0)) &&
              (r.None? <==> |sent| == turns && forall k :: 0 <= k < turns ==> respond(k) == 0)
  {
    if image.None? || !DwordAligned(image.value) {
      return Some(Rejected(EINVAL)), [];
    }
    var size: u32 := image.value;
    var xferSize: u32 := NormalizeXferAsWritten(0);
    var offset: u32 := 0;
    ghost var plan := Repeated(ChunkCommand(0, 0), turns);
    OutcomeMeaning(plan, respond, 0);
    sent := [];
    while size > 0 && |sent| < turns
      invariant size == image.value && offset == 0 && xferSize == 0
      invariant |sent| <= turns && sent == plan[..|sent|] && (size == 0 ==> sent == [])
      invariant Outcome(plan, respond, 0) == Outcome(plan, respond, |sent|)
      decreases turns - |sent|
    {
      var len := ChunkLen(xferSize, size);
      var cmd := ChunkCommand(len, offset);
      var err := respond(|sent|);
      assert plan[..|sent| + 1] == sent + [cmd];
      sent := sent + [cmd];
      if err < 0 {
        return Some(HostExit(err)), sent;
      } else if err != 0 {
        return Some(DeviceError(err)), sent;
      }
      xferSize, size, offset := len, size - len, offset + len;
    }
    if size == 0 {
      return Some(Completed), sent;
    }
    assert sent == plan;
    return None, sent;
  }
}

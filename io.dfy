/**
 * The NVM I/O commands nvme.c submits directly: Read, Write and Compare
 * through NVME_IOCTL_SUBMIT_IO (a `struct nvme_user_io`), Flush, and the
 * raw admin and I/O passthrough commands whose every field the user gives.
 */
module Io {
  import opened Bits
  import opened Command

  // ------------------------------------------------------------ Control word

  /** NVME_RW_LR, limited retry: bit 15 of the Read/Write control word. */
  const RW_LR: u16 := 0x8000
  /** NVME_RW_FUA, force unit access: bit 14. */
  const RW_FUA: u16 := 0x4000

  /**
   * Read/Write/Compare command dword 12, bits 31:16, as the `control` field
   * of `struct nvme_user_io` (NVM Express 1.2, section 6.9): protection
   * information field PRINFO in bits 13:10, FUA bit 14, LR bit 15; bits 9:0
   * are reserved.
   */
  datatype ControlWord = ControlWord(prinfo: nat, fua: nat, lr: nat, reserved: nat)

  function DecodeControl(c: u16): ControlWord
  {
    ControlWord(Field(c, 10, 4), Field(c, 14, 1), Field(c, 15, 1), Field(c, 0, 10))
  }

  function Bit(b: bool): (r: nat)
    ensures r <= 1 && (r == 1 <==> b)
  {
    if b then 1 else 0
  }

  /**
   * `control |= prinfo << 10`, `control |= NVME_RW_FUA`, `control |=
   * NVME_RW_LR` applied to a zeroed control word (the options may come in
   * any order; each is taken once here).
   */
  function ControlOf(prinfo: u8, fua: bool, lr: bool): u32
  {
    Or32(Or32(Shl(prinfo, 10), if fua then RW_FUA else 0), if lr then RW_LR else 0)
  }

  /**
   * A `--prinfo` above 15 is EINVAL; otherwise the control word holds exactly
   * the requested protection information and the two flags.
   */
  function IoControl(prinfo: Option<u8>, fua: bool, lr: bool): (r: Result<u16>)
    ensures r.Err? <==> prinfo.Some? && prinfo.value > 0xf
    ensures r.Ok? ==>
              DecodeControl(r.value) == ControlWord(if prinfo.Some? then prinfo.value else 0, Bit(fua), Bit(lr), 0)
  {
    if prinfo.Some? && prinfo.value > 0xf then Err(EINVAL)
    else
      var p := if prinfo.Some? then prinfo.value else 0;
      ControlRoundTrip(p, fua, lr);
      Ok(ControlOf(p, fua, lr))
  }

  lemma ControlRoundTrip(prinfo: u8, fua: bool, lr: bool)
    requires prinfo <= 0xf
    ensures ControlOf(prinfo, fua, lr) == 0x400 * prinfo + 0x4000 * Bit(fua) + 0x8000 * Bit(lr)
    ensures ControlOf(prinfo, fua, lr) < 0x1_0000
    ensures DecodeControl(ControlOf(prinfo, fua, lr)) == ControlWord(prinfo, Bit(fua), Bit(lr), 0)
  {
    ControlPacks(prinfo, fua, lr);
    ControlFields(ControlOf(prinfo, fua, lr), prinfo, Bit(fua), Bit(lr));
  }

  lemma ControlPacks(prinfo: u8, fua: bool, lr: bool)
    requires prinfo <= 0xf
    ensures ControlOf(prinfo, fua, lr) == 0x400 * prinfo + 0x4000 * Bit(fua) + 0x8000 * Bit(lr)
  {
    var f, l := Bit(fua), Bit(lr);
    var fuaBit: u32 := if fua then RW_FUA else 0;
    var lrBit: u32 := if lr then RW_LR else 0;
    assert fuaBit == f * 0x4000 && lrBit == l * 0x8000;
    PrinfoWithFua(prinfo, f);
    WithLr(0x400 * prinfo + 0x4000 * f, l);
  }

  lemma PrinfoWithFua(prinfo: u8, f: nat)
    requires prinfo <= 0xf && f <= 1
    ensures Or32(Shl(prinfo, 10), f * 0x4000) == 0x400 * prinfo + 0x4000 * f
  {
    PowersOfTwo();
    ShlAt(prinfo, 10, 0x400);
    OrAt(f, 0x400 * prinfo, 14, 0x4000);
  }

  lemma WithLr(low: u32, l: nat)
    requires low < 0x8000 && l <= 1
    ensures Or32(low, l * 0x8000) == low + 0x8000 * l
  {
    PowersOfTwo();
    OrAt(l, low, 15, 0x8000);
  }

  lemma ControlFields(c: u16, prinfo: nat, f: nat, l: nat)
    requires prinfo <= 0xf && f <= 1 && l <= 1 && c == 0x400 * prinfo + 0x4000 * f + 0x8000 * l
    ensures DecodeControl(c) == ControlWord(prinfo, f, l, 0)
  {
    PowersOfTwo();
    FieldAt(c, 2 * l + f, prinfo, 0, 10, 4, 0x400, 16);
    FieldAt(c, l, f, 0x400 * prinfo, 14, 1, 0x4000, 2);
    FieldAt(c, 0, l, 0x400 * prinfo + 0x4000 * f, 15, 1, 0x8000, 2);
    FieldAt(c, prinfo + 16 * f + 32 * l, 0, 0, 0, 10, 1, 0x400);
  }

  // ---------------------------------------------------- Read, Write, Compare

  /** `struct nvme_user_io` as submit_io leaves it (flags, rsvd, dsmgmt and metadata stay 0). */
  datatype UserIo = UserIo(opcode: u8, control: u16, nblocks: u16, slba: u64,
                           reftag: u32, apptag: u16, appmask: u16)

  /**
   * What submit_io hands over: the command, the size of the host buffer and
   * whether that buffer is first filled from the input (`opcode & 1`: data
   * goes to the device) or written to the output after a successful command.
   */
  datatype IoRequest = IoRequest(io: UserIo, bufferLen: u32, toDevice: bool)

  /**
   * read, write and compare: a bad `--prinfo` or a missing (zero)
   * `--data-size` is EINVAL; the data size sizes the host buffer only and is
   * not part of the command.
   */
  function SubmitIo(opcode: u8, slba: u64, nblocks: u16, dataSize: u32, reftag: u32,
                    apptag: u16, appmask: u16, prinfo: Option<u8>, fua: bool, lr: bool): (r: Result<IoRequest>)
    ensures r.Err? <==> (prinfo.Some? && prinfo.value > 0xf) || dataSize == 0
    ensures r.Ok? ==> r.value.io == UserIo(opcode, IoControl(prinfo, fua, lr).value, nblocks, slba,
                                           reftag, apptag, appmask)
    ensures r.Ok? ==> r.value.bufferLen == dataSize
    ensures r.Ok? ==> (r.value.toDevice <==> Field(opcode, 0, 1) == 1)
  {
    match IoControl(prinfo, fua, lr)
    case Err(e) => Err(e)
    case Ok(control) =>
      if dataSize == 0 then Err(EINVAL)
      else Ok(IoRequest(UserIo(opcode, control, nblocks, slba, reftag, apptag, appmask),
                        dataSize, OddOpcode(opcode)))
  }

  /** `opcode & 1`: the NVM command set gives data-out commands odd opcodes. */
  predicate OddOpcode(opcode: u8)
    ensures OddOpcode(opcode) <==> Field(opcode, 0, 1) == 1
  {
    PowersOfTwo();
    opcode % 2 == 1
  }

  /** Write and Compare send the input file's data; Read brings data back to the output. */
  lemma DataDirections()
    ensures OddOpcode(IO_WRITE) && OddOpcode(IO_COMPARE) && !OddOpcode(IO_READ)
  {
  }

  // ------------------------------------------------------------------ Flush

  /** flush: the namespace (0xffffffff, all of them, unless given) and nothing else. */
  function Flush(nsid: u32): (d: Descriptor)
    ensures OnlyDriverFields(d) && d.opcode == IO_FLUSH && d.nsid == nsid
    ensures d.dataLen == 0 && d.cdw10 == 0 && d.cdw11 == 0
  {
    Zeroed.(opcode := IO_FLUSH, nsid := nsid)
  }

  // ------------------------------------------------------------ Passthrough

  datatype Direction = NoData | FromDevice | ToDevice

  /** A passthrough command, the ioctl it goes through and the direction of its data. */
  datatype Passthrough = Passthrough(queue: Queue, cmd: Descriptor, direction: Direction)

  /**
   * io-passthru and admin-passthru: the descriptor is exactly what the
   * options gave. A command that transfers data must say whether it reads
   * or writes, and not both (EINVAL); without data the flags are not looked
   * at.
   */
  function Passthru(queue: Queue, cmd: Descriptor, read: bool, write: bool): (r: Result<Passthrough>)
    ensures r.Err? <==> cmd.dataLen > 0 && read == write
    ensures r.Ok? ==> r.value.cmd == cmd && r.value.queue == queue
    ensures r.Ok? ==> (r.value.direction.NoData? <==> cmd.dataLen == 0)
    ensures r.Ok? && cmd.dataLen > 0 ==> (r.value.direction.ToDevice? <==> write)
    ensures r.Ok? && cmd.dataLen > 0 ==> (r.value.direction.FromDevice? <==> read)
  {
    if cmd.dataLen == 0 then Ok(Passthrough(queue, cmd, NoData))
    else if !read && !write then Err(EINVAL)
    else if read && write then Err(EINVAL)
    else if write then Ok(Passthrough(queue, cmd, ToDevice))
    else Ok(Passthrough(queue, cmd, FromDevice))
  }

  /** Without data, any combination of the direction flags is accepted. */
  lemma NoDataIgnoresDirection(queue: Queue, cmd: Descriptor, read: bool, write: bool)
    requires cmd.dataLen == 0
    ensures Passthru(queue, cmd, read, write) == Passthru(queue, cmd, false, false)
  {
  }
}

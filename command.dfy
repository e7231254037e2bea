/**
 * The NVMe command descriptor every sub-command fills in, and the boundary
 * it is handed to.
 *
 * Each driver in nvme.c declares a `struct nvme_admin_cmd` or
 * `struct nvme_passthru_cmd`, zeroes it with `memset` and assigns the fields
 * it needs one by one. Here that is the record `Zeroed` updated with the
 * driver's fields. The buffer addresses (`addr`, `metadata`) are host
 * pointers and are not modelled; a transfer's length is.
 */
module Command {
  import opened Bits

  /**
   * The error numbers a driver returns before anything is submitted: EINVAL,
   * ENOTBLK (a namespace is needed and the device is not a block device), or
   * whatever `errno` a failed ioctl left behind (`return errno`).
   */
  datatype Errno = EINVAL | ENOTBLK | IoctlErrno

  datatype Result<T> = Ok(value: T) | Err(error: Errno)

  datatype Option<T> = None | Some(value: T)

  /** The ioctl a command goes through: NVME_IOCTL_ADMIN_CMD or NVME_IOCTL_IO_CMD. */
  datatype Queue = Admin | Io

  datatype Descriptor = Descriptor(
    opcode: u8,
    flags: u8,
    rsvd1: u16,
    nsid: u32,
    cdw2: u32,
    cdw3: u32,
    metadataLen: u32,
    dataLen: u32,
    cdw10: u32,
    cdw11: u32,
    cdw12: u32,
    cdw13: u32,
    cdw14: u32,
    cdw15: u32,
    timeoutMs: u32)

  /** The descriptor right after `memset(&cmd, 0, sizeof(cmd))`. */
  const Zeroed: Descriptor := Descriptor(0, 0, 0, 0, 0, 0, 0, 0, 0, 0, 0, 0, 0, 0, 0)

  /**
   * True when every field a driver did not assign still holds the zero that
   * `memset` put there: only the opcode, namespace, data length and the
   * first two command-specific dwords are ever set by the fixed drivers.
   */
  predicate OnlyDriverFields(d: Descriptor)
  {
    d == Zeroed.(opcode := d.opcode, nsid := d.nsid, dataLen := d.dataLen,
                 cdw10 := d.cdw10, cdw11 := d.cdw11)
  }

  // Admin command opcodes (NVM Express 1.2, section 5, "Admin Command Set").
  const ADMIN_GET_LOG_PAGE: u8 := 0x02
  const ADMIN_IDENTIFY: u8 := 0x06
  const ADMIN_SET_FEATURES: u8 := 0x09
  const ADMIN_GET_FEATURES: u8 := 0x0a
  const ADMIN_ACTIVATE_FW: u8 := 0x10
  const ADMIN_DOWNLOAD_FW: u8 := 0x11
  const ADMIN_FORMAT_NVM: u8 := 0x80
  const ADMIN_SECURITY_SEND: u8 := 0x81
  const ADMIN_SECURITY_RECV: u8 := 0x82

  // NVM command set opcodes (NVM Express 1.2, section 6).
  const IO_FLUSH: u8 := 0x00
  const IO_WRITE: u8 := 0x01
  const IO_READ: u8 := 0x02
  const IO_COMPARE: u8 := 0x05
  const IO_RESV_REGISTER: u8 := 0x0d
  const IO_RESV_REPORT: u8 := 0x0e
  const IO_RESV_ACQUIRE: u8 := 0x11
  const IO_RESV_RELEASE: u8 := 0x15

  /**
   * What one blocking ioctl gives back: its signed return value (negative for
   * a host failure, 0 for success, positive for an NVMe status) and the
   * command's 32-bit result dword.
   */
  datatype Completion = Completion(err: i32, result: u32)

  /**
   * How a driver that needs a namespace settles on one: a non-zero
   * `--namespace-id` is used as given; otherwise the device must be a
   * namespace block device (else the program exits with ENOTBLK) and the
   * kernel is asked for its id (NVME_IOCTL_ID, whose int return value is a
   * parameter here).
   */
  datatype NsidResolution = Resolved(nsid: u32) | NotBlockDevice | LookupFailed

  /**
   * As written, the int the ioctl returns is stored in an unsigned int and
   * then compared by `nsid <= 0`, which only catches 0: a failing ioctl (-1)
   * becomes namespace 0xffffffff, the broadcast namespace.
   */
  function ResolveNsidAsWritten(given: u32, isBlock: bool, idRet: i32): (r: NsidResolution)
    ensures r.Resolved? ==> r.nsid != 0
    ensures given != 0 ==> r == Resolved(given)
    ensures given == 0 && !isBlock ==> r == NotBlockDevice
  {
    if given != 0 then Resolved(given)
    else if !isBlock then NotBlockDevice
    else
      var nsid := Unsigned32(idRet);
      if nsid <= 0 then LookupFailed else Resolved(nsid)
  }

  /** The error return -1 of NVME_IOCTL_ID is taken for a namespace id. */
  lemma LookupErrorBecomesBroadcast()
    ensures ResolveNsidAsWritten(0, true, -1) == Resolved(0xffff_ffff)
    ensures ResolveNsid(0, true, -1) == LookupFailed
  {
  }

  /** The resolution with the test done on the signed return value. */
  function ResolveNsid(given: u32, isBlock: bool, idRet: i32): (r: NsidResolution)
    ensures r.Resolved? ==> r.nsid != 0
    ensures given != 0 ==> r == Resolved(given)
    ensures given == 0 && !isBlock ==> r == NotBlockDevice
    ensures given == 0 && isBlock ==> (r.Resolved? <==> idRet > 0)
    ensures given == 0 && isBlock && r.Resolved? ==> r.nsid == idRet
  {
    if given != 0 then Resolved(given)
    else if !isBlock then NotBlockDevice
    else if idRet <= 0 then LookupFailed
    else Resolved(idRet)
  }

  /** The two agree whenever the ioctl does not fail. */
  lemma ResolveNsidAgrees(given: u32, isBlock: bool, idRet: i32)
    requires idRet >= 0
    ensures ResolveNsidAsWritten(given, isBlock, idRet) == ResolveNsid(given, isBlock, idRet)
  {
  }
  /**
   * The namespace a driver goes on with, or the error it stops with:
   * ENOTBLK when the device is not a block device, the lookup's errno when
   * NVME_IOCTL_ID fails.
   */
  function Settle(res: NsidResolution): (r: Result<u32>)
    ensures r == Err(ENOTBLK) <==> res.NotBlockDevice?
    ensures r == Err(IoctlErrno) <==> res.LookupFailed?
    ensures r.Ok? <==> res.Resolved?
    ensures r.Ok? ==> r.value == res.nsid
  {
    match res
    case Resolved(nsid) => Ok(nsid)
    case NotBlockDevice => Err(ENOTBLK)
    case LookupFailed => Err(IoctlErrno)
  }

  /**
   * The namespace the reservation drivers settle on, as written: the option
   * when it is non-zero, else the block device's NVME_IOCTL_ID answer taken
   * unsigned, so that only an answer of 0 fails.
   */
  function SettleNsidAsWritten(given: u32, isBlock: bool, idRet: i32): (r: Result<u32>)
    ensures r == Err(ENOTBLK) <==> given == 0 && !isBlock
    ensures r == Err(IoctlErrno) <==> given == 0 && isBlock && idRet == 0
    ensures r.Ok? ==> r.value != 0
    ensures r.Ok? ==> r.value == if given != 0 then given else Unsigned32(idRet)
  {
    Settle(ResolveNsidAsWritten(given, isBlock, idRet))
  }

  /** The same with the corrected lookup: any non-positive answer fails. */
  function SettleNsid(given: u32, isBlock: bool, idRet: i32): (r: Result<u32>)
    ensures r == Err(ENOTBLK) <==> given == 0 && !isBlock
    ensures r == Err(IoctlErrno) <==> given == 0 && isBlock && idRet <= 0
    ensures r.Ok? ==> r.value != 0
    ensures r.Ok? ==> r.value == if given != 0 then given else idRet as u32
  {
    Settle(ResolveNsid(given, isBlock, idRet))
  }
}

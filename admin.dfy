/**
 * Encoders for the admin commands nvme.c builds: Identify, Get Log Page,
 * Format NVM, Firmware Activate and Security Send/Receive. Each takes the
 * scalar values the driver has already parsed, performs the driver's range
 * checks (EINVAL before anything is submitted) and returns the descriptor
 * the driver hands to NVME_IOCTL_ADMIN_CMD.
 *
 * Beside each command-dword layout stands its decoder (the NVM Express 1.2
 * field map of that dword), and each encoder promises that decoding the
 * dword it built gives back the driver's inputs.
 */
module Admin {
  import opened Bits
  import opened Command

  // ---------------------------------------------------------------- Identify

  /** The Identify data structure is 4096 bytes for every CNS value used here. */
  const IDENTIFY_DATA_SIZE: u32 := 4096

  /** What is identified: the CNS value in cdw10 selects it. */
  datatype IdentifyTarget =
    | Namespace(nsid: u32)      // CNS 0, used by id-ns
    | Controller                // CNS 1, used by id-ctrl and list
    | NamespaceList(from: u32)  // CNS 2, used by list-ns

  /** `identify(namespace, ptr, cns)`: the command each identify caller submits. */
  function Identify(t: IdentifyTarget): (d: Descriptor)
    ensures OnlyDriverFields(d) && d.opcode == ADMIN_IDENTIFY
    ensures d.dataLen == IDENTIFY_DATA_SIZE && d.cdw11 == 0
    ensures t.Namespace? ==> d.cdw10 == 0 && d.nsid == t.nsid
    ensures t.Controller? ==> d.cdw10 == 1 && d.nsid == 0
    ensures t.NamespaceList? ==> d.cdw10 == 2 && d.nsid == t.from
  {
    var (nsid, cns) := match t
      case Namespace(n) => (n, 0)
      case Controller => (0, 1)
      case NamespaceList(n) => (n, 2);
    Zeroed.(opcode := ADMIN_IDENTIFY, nsid := nsid, dataLen := IDENTIFY_DATA_SIZE, cdw10 := cns)
  }

  /** list-ns reads the identify data as `__u32 ns_list[1024]`: the transfer fills it exactly. */
  lemma NamespaceListFillsBuffer(from: u32)
    ensures Identify(NamespaceList(from)).dataLen == 4 * 1024
  {
  }

  // ------------------------------------------------------------ Get Log Page

  /** Log page sizes of NVM Express 1.2, section 5.10.1 (an error log entry is 64 bytes). */
  const SMART_LOG_SIZE: u32 := 512
  const FW_SLOT_LOG_SIZE: u32 := 512

  const LOG_ERROR: u32 := 0x01
  const LOG_SMART: u32 := 0x02
  const LOG_FW_SLOT: u32 := 0x03

  /** Get Log Page cdw10: log identifier in the low 16 bits, NUMD (dwords - 1) in the high 16. */
  datatype LogPageDword10 = LogPageDword10(lid: nat, numd: nat)

  function DecodeLogPageDword10(c: u32): LogPageDword10
  {
    LogPageDword10(Field(c, 0, 16), Field(c, 16, 16))
  }

  /** `lid | (((len / 4) - 1) << 16)`, in unsigned int arithmetic. */
  function LogPageDword10Of(lid: u32, len: u32): u32
  {
    Or32(lid, Shl(Sub32(len / 4, 1), 16))
  }

  /**
   * For a log id that fits its field and a length of at least one dword
   * whose dword count fits 16 bits, the dword decodes to the log id and to
   * one less than the number of dwords.
   */
  lemma LogPageDword10RoundTrip(lid: u32, len: u32)
    requires lid < 0x1_0000 && 4 <= len < 0x4_0000
    ensures DecodeLogPageDword10(LogPageDword10Of(lid, len)) == LogPageDword10(lid, len / 4 - 1)
    ensures LogPageDword10Of(lid, len) == lid + (len / 4 - 1) * 0x1_0000
  {
    var n := len / 4 - 1;
    assert Sub32(len / 4, 1) == n;
    LogPagePacks(lid, n);
    LogPageFields(LogPageDword10Of(lid, len), lid, n);
  }

  /** `lid | n << 16` with both below 2^16: the two do not overlap. */
  lemma LogPagePacks(lid: u32, n: u32)
    requires lid < 0x1_0000 && n < 0x1_0000
    ensures Or32(lid, Shl(n, 16)) == n * 0x1_0000 + lid
  {
    PowersOfTwo();
    ShlAt(n, 16, 0x1_0000);
    OrAt(n, lid, 16, 0x1_0000);
  }

  lemma LogPageFields(c: u32, lid: nat, n: nat)
    requires lid < 0x1_0000 && n < 0x1_0000 && c == n * 0x1_0000 + lid
    ensures DecodeLogPageDword10(c) == LogPageDword10(lid, n)
  {
    PowersOfTwo();
    FieldAt(c, n, lid, 0, 0, 16, 1, 0x1_0000);
    FieldAt(c, 0, n, lid, 16, 16, 0x1_0000, 0x1_0000);
  }

  /**
   * A length below one dword makes `len / 4 - 1` wrap to 0xffffffff, and the
   * NUMD field then asks for 65536 dwords.
   */
  lemma ShortLogLengthWraps(lid: u32, len: u32)
    requires lid < 0x1_0000 && len < 4
    ensures DecodeLogPageDword10(LogPageDword10Of(lid, len)) == LogPageDword10(lid, 0xffff)
  {
    assert Shl(Sub32(len / 4, 1), 16) == 0xffff * 0x1_0000 by {
      assert len / 4 == 0;
      AllOnesShifted();
    }
    assert LogPageDword10Of(lid, len) == 0xffff * 0x1_0000 + lid by {
      PowersOfTwo();
      OrAt(0xffff, lid, 16, 0x1_0000);
    }
    LogPageFields(LogPageDword10Of(lid, len), lid, 0xffff);
  }

  /** `0xffffffff << 16` in 32 bits keeps the low sixteen ones, moved up. */
  lemma AllOnesShifted()
    ensures Shl(Sub32(0, 1), 16) == 0xffff * 0x1_0000
  {
    PowersOfTwo();
    assert 0xffff_ffff * Pow2(16) == U32_LIMIT * 0xffff + 0xffff_0000;
    DivModUnique(U32_LIMIT, 0xffff, 0xffff_0000);
  }

  /** `nvme_get_log(log, len, dw10, nsid)`. */
  function GetLogCommand(len: u32, dw10: u32, nsid: u32): (d: Descriptor)
    ensures OnlyDriverFields(d) && d.opcode == ADMIN_GET_LOG_PAGE && d.cdw11 == 0
    ensures d.dataLen == len && d.cdw10 == dw10 && d.nsid == nsid
  {
    Zeroed.(opcode := ADMIN_GET_LOG_PAGE, dataLen := len, cdw10 := dw10, nsid := nsid)
  }

  /** get-log: a zero length is refused; otherwise the log id and length are packed. */
  function GetLog(lid: u32, len: u32, nsid: u32): (r: Result<Descriptor>)
    ensures r.Err? <==> len == 0
    ensures r.Ok? ==> r.value == GetLogCommand(len, LogPageDword10Of(lid, len), nsid)
  {
    if len == 0 then Err(EINVAL)
    else Ok(GetLogCommand(len, LogPageDword10Of(lid, len), nsid))
  }

  /**
   * A log id that fits its field and a length of at least one dword whose
   * dword count fits 16 bits: get-log asks for exactly `len` bytes of that log.
   */
  lemma GetLogRoundTrip(lid: u32, len: u32, nsid: u32)
    requires lid < 0x1_0000 && 4 <= len < 0x4_0000
    ensures GetLog(lid, len, nsid).Ok?
    ensures GetLog(lid, len, nsid).value.dataLen == len
    ensures DecodeLogPageDword10(GetLog(lid, len, nsid).value.cdw10) == LogPageDword10(lid, len / 4 - 1)
  {
    LogPageDword10RoundTrip(lid, len);
  }

  /** smart-log: log 2, the whole 512-byte SMART / Health log. */
  function SmartLog(nsid: u32): (d: Descriptor)
    ensures OnlyDriverFields(d) && d.opcode == ADMIN_GET_LOG_PAGE && d.cdw11 == 0
    ensures d.dataLen == SMART_LOG_SIZE && d.nsid == nsid
    ensures DecodeLogPageDword10(d.cdw10) == LogPageDword10(2, 127)
  {
    LogPageDword10RoundTrip(LOG_SMART, SMART_LOG_SIZE);
    GetLogCommand(SMART_LOG_SIZE, LogPageDword10Of(LOG_SMART, SMART_LOG_SIZE), nsid)
  }

  /** fw-log: log 3, the 512-byte firmware slot log, for every namespace. */
  function FirmwareLog(): (d: Descriptor)
    ensures OnlyDriverFields(d) && d.opcode == ADMIN_GET_LOG_PAGE && d.cdw11 == 0
    ensures d.dataLen == FW_SLOT_LOG_SIZE && d.nsid == 0xffff_ffff
    ensures DecodeLogPageDword10(d.cdw10) == LogPageDword10(3, 127)
  {
    LogPageDword10RoundTrip(LOG_FW_SLOT, FW_SLOT_LOG_SIZE);
    GetLogCommand(FW_SLOT_LOG_SIZE, LogPageDword10Of(LOG_FW_SLOT, FW_SLOT_LOG_SIZE), 0xffff_ffff)
  }

  /**
   * error-log: `entries` 64-byte entries. The length and the dword are
   * computed as size_t and passed as unsigned int, so both are taken modulo
   * 2^32.
   */
  function ErrorLog(entries: u32, nsid: u32): (r: Result<Descriptor>)
    ensures r.Err? <==> entries == 0
    ensures r.Ok? ==> OnlyDriverFields(r.value) && r.value.opcode == ADMIN_GET_LOG_PAGE
    ensures r.Ok? ==> r.value.nsid == nsid && r.value.cdw11 == 0
    ensures r.Ok? && entries <= 4096 ==>
              r.value.dataLen == 64 * entries &&
              DecodeLogPageDword10(r.value.cdw10) == LogPageDword10(1, 16 * entries - 1)
  {
    if entries == 0 then Err(EINVAL)
    else
      ErrorLogRoundTrip(entries);
      Ok(GetLogCommand(ErrorLogLength(entries), ErrorLogDword10(entries), nsid))
  }

  /** `sizeof(err_log)` for `entries` entries, truncated to unsigned int. */
  function ErrorLogLength(entries: u32): (r: u32)
    ensures entries < 0x400_0000 ==> r == 64 * entries
  {
    ModSmall(64 * entries);
    64 * entries % U32_LIMIT
  }

  /** `0x1 | ((sizeof(err_log) / 4 - 1) << 16)`, truncated to unsigned int. */
  function ErrorLogDword10(entries: u32): u32
    requires entries > 0
  {
    Or32(LOG_ERROR, Shl(64 * entries / 4 - 1, 16))
  }

  lemma ErrorLogRoundTrip(entries: u32)
    requires entries > 0
    ensures entries <= 4096 ==>
              DecodeLogPageDword10(ErrorLogDword10(entries)) == LogPageDword10(1, 16 * entries - 1)
  {
    if entries <= 4096 {
      var n := 16 * entries - 1;
      assert 64 * entries / 4 - 1 == n;
      LogPagePacks(LOG_ERROR, n);
      LogPageFields(ErrorLogDword10(entries), 1, n);
    }
  }

  // -------------------------------------------------------------- Format NVM

  /** Format NVM cdw10 (NVM Express 1.2, section 5.14): LBAF 3:0, MS 4, PI 7:5, PIL 8, SES 11:9. */
  datatype FormatDword10 = FormatDword10(lbaf: nat, ms: nat, pi: nat, pil: nat, ses: nat)

  function DecodeFormatDword10(c: u32): FormatDword10
  {
    FormatDword10(Field(c, 0, 4), Field(c, 4, 1), Field(c, 5, 3), Field(c, 8, 1), Field(c, 9, 3))
  }

  /** `(lbaf << 0) | (ms << 4) | (pi << 5) | (pil << 8) | (ses << 9)`. */
  function FormatDword10Of(lbaf: u8, ms: u8, pi: u8, pil: u8, ses: u8): u32
  {
    Or32(Or32(Or32(Or32(Shl(lbaf, 0), Shl(ms, 4)), Shl(pi, 5)), Shl(pil, 8)), Shl(ses, 9))
  }

  lemma FormatDword10Packs(lbaf: u8, ms: u8, pi: u8, pil: u8, ses: u8)
    requires lbaf <= 15 && ms <= 1 && pi <= 7 && pil <= 1 && ses <= 7
    ensures FormatDword10Of(lbaf, ms, pi, pil, ses) == lbaf + 16 * ms + 32 * pi + 256 * pil + 512 * ses
  {
    PowersOfTwo();
    var a := lbaf + 16 * ms;
    assert Or32(Shl(lbaf, 0), Shl(ms, 4)) == a by {
      ShlAt(lbaf, 0, 1);
      ShlAt(ms, 4, 16);
      OrAt(ms, lbaf, 4, 16);
    }
    var b := a + 32 * pi;
    assert Or32(a, Shl(pi, 5)) == b by {
      ShlAt(pi, 5, 32);
      OrAt(pi, a, 5, 32);
    }
    var c := b + 256 * pil;
    assert Or32(b, Shl(pil, 8)) == c by {
      ShlAt(pil, 8, 256);
      OrAt(pil, b, 8, 256);
    }
    assert Or32(c, Shl(ses, 9)) == c + 512 * ses by {
      ShlAt(ses, 9, 512);
      OrAt(ses, c, 9, 512);
    }
  }

  lemma FormatDword10RoundTrip(lbaf: u8, ms: u8, pi: u8, pil: u8, ses: u8)
    requires lbaf <= 15 && ms <= 1 && pi <= 7 && pil <= 1 && ses <= 7
    ensures DecodeFormatDword10(FormatDword10Of(lbaf, ms, pi, pil, ses)) == FormatDword10(lbaf, ms, pi, pil, ses)
    ensures FormatDword10Of(lbaf, ms, pi, pil, ses) < 0x1000
  {
    FormatDword10Packs(lbaf, ms, pi, pil, ses);
    FormatDword10Fields(FormatDword10Of(lbaf, ms, pi, pil, ses), lbaf, ms, pi, pil, ses);
  }

  lemma FormatDword10Fields(c: u32, lbaf: nat, ms: nat, pi: nat, pil: nat, ses: nat)
    requires lbaf <= 15 && ms <= 1 && pi <= 7 && pil <= 1 && ses <= 7
    requires c == lbaf + 16 * ms + 32 * pi + 256 * pil + 512 * ses
    ensures DecodeFormatDword10(c) == FormatDword10(lbaf, ms, pi, pil, ses)
  {
    PowersOfTwo();
    FieldAt(c, ms + 2 * pi + 16 * pil + 32 * ses, lbaf, 0, 0, 4, 1, 16);
    FieldAt(c, pi + 8 * pil + 16 * ses, ms, lbaf, 4, 1, 16, 2);
    FieldAt(c, pil + 2 * ses, pi, lbaf + 16 * ms, 5, 3, 32, 8);
    FieldAt(c, ses, pil, lbaf + 16 * ms + 32 * pi, 8, 1, 256, 2);
    FieldAt(c, 0, ses, lbaf + 16 * ms + 32 * pi + 256 * pil, 9, 3, 512, 8);
  }

  /**
   * The namespace format settles on, as written. `given` is the
   * `--namespace-id` option, 0xffffffff when it is absent. On a block device
   * the kernel's NVME_IOCTL_ID answer replaces it, even when the option was
   * given. The int answer is stored in the unsigned `nsid`, so `nsid <= 0`
   * only catches 0, and a failing ioctl (-1) selects namespace 0xffffffff,
   * every namespace of the controller.
   */
  function FormatNsidAsWritten(given: u32, isBlock: bool, idRet: i32): (r: NsidResolution)
    ensures !r.NotBlockDevice?
    ensures !isBlock ==> r == Resolved(given)
    ensures isBlock ==> (r.LookupFailed? <==> idRet == 0)
    ensures isBlock && idRet > 0 ==> r == Resolved(idRet)
    ensures isBlock && idRet < 0 ==> r == Resolved(idRet + U32_LIMIT)
  {
    if !isBlock then Resolved(given)
    else
      var nsid := Unsigned32(idRet);
      if nsid <= 0 then LookupFailed else Resolved(nsid)
  }

  /** The resolution with the test done on the signed answer: any error refuses the format. */
  function FormatNsid(given: u32, isBlock: bool, idRet: i32): (r: NsidResolution)
    ensures !r.NotBlockDevice?
    ensures !isBlock ==> r == Resolved(given)
    ensures isBlock ==> (r.Resolved? <==> idRet > 0)
    ensures isBlock && r.Resolved? ==> r.nsid == idRet
  {
    if !isBlock then Resolved(given)
    else if idRet <= 0 then LookupFailed
    else Resolved(idRet)
  }

  /** The two agree whenever NVME_IOCTL_ID does not return a negative value. */
  lemma FormatNsidAgrees(given: u32, isBlock: bool, idRet: i32)
    requires idRet >= 0
    ensures FormatNsidAsWritten(given, isBlock, idRet) == FormatNsid(given, isBlock, idRet)
  {
  }

  /**
   * The Format NVM command once the namespace is settled: each field is
   * checked against its width (ms, pil, ses, lbaf, pi, in that order, all
   * EINVAL) before the namespace lookup, whose failure returns its errno.
   */
  function FormatFor(nsid: NsidResolution, lbaf: u8, ses: u8, pil: u8, pi: u8, ms: u8): (r: Result<Descriptor>)
    requires !nsid.NotBlockDevice?
    ensures r == Err(EINVAL) <==> ms > 1 || pil > 1 || ses > 7 || lbaf > 15 || pi > 7
    ensures r == Err(IoctlErrno) <==> !(ms > 1 || pil > 1 || ses > 7 || lbaf > 15 || pi > 7) && nsid.LookupFailed?
    ensures r.Ok? ==> nsid.Resolved? && r.value.nsid == nsid.nsid
    ensures r.Ok? ==> OnlyDriverFields(r.value) && r.value.opcode == ADMIN_FORMAT_NVM
    ensures r.Ok? ==> r.value.dataLen == 0 && r.value.cdw11 == 0
    ensures r.Ok? ==> DecodeFormatDword10(r.value.cdw10) == FormatDword10(lbaf, ms, pi, pil, ses)
    ensures r.Ok? ==> r.value.cdw10 < 0x1000
  {
    if ms > 1 || pil > 1 || ses > 7 || lbaf > 15 || pi > 7 then Err(EINVAL)
    else if nsid.LookupFailed? then Err(IoctlErrno)
    else
      FormatDword10RoundTrip(lbaf, ms, pi, pil, ses);
      Ok(Zeroed.(opcode := ADMIN_FORMAT_NVM, nsid := nsid.nsid,
                 cdw10 := FormatDword10Of(lbaf, ms, pi, pil, ses)))
  }

  /**
   * format as written: `given` is the `--namespace-id` option (0xffffffff
   * when absent), `isBlock` whether the device is a block device and `idRet`
   * what NVME_IOCTL_ID returns there.
   */
  function Format(given: u32, isBlock: bool, idRet: i32, lbaf: u8, ses: u8, pil: u8, pi: u8, ms: u8)
    : (r: Result<Descriptor>)
    ensures r == Err(EINVAL) <==> ms > 1 || pil > 1 || ses > 7 || lbaf > 15 || pi > 7
    ensures r == Err(IoctlErrno) <==> r != Err(EINVAL) && isBlock && idRet == 0
    ensures r.Ok? ==> r.value.nsid == if isBlock then Unsigned32(idRet) else given
    ensures r.Ok? ==> OnlyDriverFields(r.value) && r.value.opcode == ADMIN_FORMAT_NVM
    ensures r.Ok? ==> r.value.dataLen == 0 && r.value.cdw11 == 0
    ensures r.Ok? ==> DecodeFormatDword10(r.value.cdw10) == FormatDword10(lbaf, ms, pi, pil, ses)
  {
    FormatFor(FormatNsidAsWritten(given, isBlock, idRet), lbaf, ses, pil, pi, ms)
  }

  /** format with the corrected namespace lookup: a failing NVME_IOCTL_ID refuses the format. */
  function FormatCorrected(given: u32, isBlock: bool, idRet: i32, lbaf: u8, ses: u8, pil: u8, pi: u8, ms: u8)
    : (r: Result<Descriptor>)
    ensures r == Err(EINVAL) <==> ms > 1 || pil > 1 || ses > 7 || lbaf > 15 || pi > 7
    ensures r == Err(IoctlErrno) <==> r != Err(EINVAL) && isBlock && idRet <= 0
    ensures r.Ok? ==> r.value.nsid == if isBlock then idRet as u32 else given
    ensures r.Ok? ==> OnlyDriverFields(r.value) && r.value.opcode == ADMIN_FORMAT_NVM
    ensures r.Ok? ==> r.value.dataLen == 0 && r.value.cdw11 == 0
    ensures r.Ok? ==> DecodeFormatDword10(r.value.cdw10) == FormatDword10(lbaf, ms, pi, pil, ses)
  {
    FormatFor(FormatNsid(given, isBlock, idRet), lbaf, ses, pil, pi, ms)
  }

  /** On a block device `--namespace-id=5` is ignored: the device's own namespace is formatted. */
  lemma FormatOverridesGivenNsid()
    ensures Format(5, true, 7, 0, 0, 0, 0, 0) == FormatCorrected(5, true, 7, 0, 0, 0, 0, 0)
    ensures Format(5, true, 7, 0, 0, 0, 0, 0).Ok? && Format(5, true, 7, 0, 0, 0, 0, 0).value.nsid == 7
  {
  }

  /**
   * A failing NVME_IOCTL_ID (-1) formats namespace 0xffffffff, every
   * namespace, where the corrected lookup refuses.
   */
  lemma FormatLookupErrorFormatsAll()
    ensures Format(5, true, -1, 0, 0, 0, 0, 0).Ok?
    ensures Format(5, true, -1, 0, 0, 0, 0, 0).value.nsid == 0xffff_ffff
    ensures FormatCorrected(5, true, -1, 0, 0, 0, 0, 0) == Err(IoctlErrno)
  {
  }

  // ------------------------------------------------------- Firmware Activate

  /** Firmware Activate cdw10 (NVM Express 1.2, section 5.8): FS 2:0, AA 4:3. */
  datatype FwActivateDword10 = FwActivateDword10(slot: nat, action: nat)

  function DecodeFwActivateDword10(c: u32): FwActivateDword10
  {
    FwActivateDword10(Field(c, 0, 3), Field(c, 3, 2))
  }

  /** The values fw-activate uses when the options are not given. */
  const FW_ACTIVATE_DEFAULT_SLOT: u8 := 0
  const FW_ACTIVATE_DEFAULT_ACTION: u8 := 1

  /** fw-activate: slot above 7 or action above 3 is EINVAL; else `(action << 3) | slot`. */
  function FwActivate(slot: u8, action: u8): (r: Result<Descriptor>)
    ensures r.Err? <==> slot > 7 || action > 3
    ensures r.Ok? ==> OnlyDriverFields(r.value) && r.value.opcode == ADMIN_ACTIVATE_FW
    ensures r.Ok? ==> r.value.nsid == 0 && r.value.dataLen == 0 && r.value.cdw11 == 0
    ensures r.Ok? ==> DecodeFwActivateDword10(r.value.cdw10) == FwActivateDword10(slot, action)
    ensures r.Ok? ==> r.value.cdw10 < 0x20
  {
    if slot > 7 || action > 3 then Err(EINVAL)
    else
      FwActivateRoundTrip(slot, action);
      Ok(Zeroed.(opcode := ADMIN_ACTIVATE_FW, cdw10 := Or32(Shl(action, 3), slot)))
  }

  lemma FwActivateRoundTrip(slot: u8, action: u8)
    requires slot <= 7 && action <= 3
    ensures Or32(Shl(action, 3), slot) == 8 * action + slot
    ensures DecodeFwActivateDword10(Or32(Shl(action, 3), slot)) == FwActivateDword10(slot, action)
  {
    assert Or32(Shl(action, 3), slot) == 8 * action + slot by {
      PowersOfTwo();
      ShlAt(action, 3, 8);
      OrAt(action, slot, 3, 8);
    }
    FwActivateFields(Or32(Shl(action, 3), slot), slot, action);
  }

  lemma FwActivateFields(c: u32, slot: nat, action: nat)
    requires slot <= 7 && action <= 3 && c == 8 * action + slot
    ensures DecodeFwActivateDword10(c) == FwActivateDword10(slot, action)
  {
    PowersOfTwo();
    FieldAt(c, action, slot, 0, 0, 3, 1, 8);
    FieldAt(c, 0, action, slot, 3, 2, 8, 4);
  }

  // ------------------------------------------------ Security Send / Receive

  /** Security Send/Receive cdw10 (NVM Express 1.2, sections 5.17-5.18): SECP 31:24, SPSP 23:8. */
  datatype SecurityDword10 = SecurityDword10(secp: nat, spsp: nat, reserved: nat)

  function DecodeSecurityDword10(c: u32): SecurityDword10
  {
    SecurityDword10(Field(c, 24, 8), Field(c, 8, 16), Field(c, 0, 8))
  }

  /** `secp << 24 | spsp << 8`. */
  function SecurityDword10Of(secp: u8, spsp: u16): u32
  {
    Or32(Shl(secp, 24), Shl(spsp, 8))
  }

  lemma SecurityDword10RoundTrip(secp: u8, spsp: u16)
    ensures DecodeSecurityDword10(SecurityDword10Of(secp, spsp)) == SecurityDword10(secp, spsp, 0)
  {
    SecurityDword10Packs(secp, spsp);
    SecurityDword10Fields(SecurityDword10Of(secp, spsp), secp, spsp);
  }

  lemma SecurityDword10Packs(secp: u8, spsp: u16)
    ensures SecurityDword10Of(secp, spsp) == secp * 0x100_0000 + spsp * 0x100
  {
    PowersOfTwo();
    ShlAt(secp, 24, 0x100_0000);
    ShlAt(spsp, 8, 0x100);
    OrAt(secp, spsp * 0x100, 24, 0x100_0000);
  }

  lemma SecurityDword10Fields(c: u32, secp: nat, spsp: nat)
    requires secp < 0x100 && spsp < 0x1_0000 && c == secp * 0x100_0000 + spsp * 0x100
    ensures DecodeSecurityDword10(c) == SecurityDword10(secp, spsp, 0)
  {
    PowersOfTwo();
    FieldAt(c, 0, secp, spsp * 0x100, 24, 8, 0x100_0000, 0x100);
    FieldAt(c, secp, spsp, 0, 8, 16, 0x100, 0x1_0000);
    FieldAt(c, secp * 0x1_0000 + spsp, 0, 0, 0, 8, 1, 0x100);
  }

  /**
   * security-send: protocol and specific fields, transfer length `tl` and the
   * payload. `file` is the size of the opened payload file, or None when no
   * file was given, which is EINVAL.
   */
  function SecuritySend(secp: u8, spsp: u16, tl: u32, file: Option<u32>): (r: Result<Descriptor>)
    ensures r.Err? <==> file.None?
    ensures r.Err? ==> r.error == EINVAL
    ensures r.Ok? ==> OnlyDriverFields(r.value) && r.value.opcode == ADMIN_SECURITY_SEND && r.value.nsid == 0
    ensures r.Ok? ==> DecodeSecurityDword10(r.value.cdw10) == SecurityDword10(secp, spsp, 0)
    ensures r.Ok? ==> r.value.cdw11 == tl && r.value.dataLen == file.value
  {
    if file.None? then Err(EINVAL)
    else
      SecurityDword10RoundTrip(secp, spsp);
      Ok(Zeroed.(opcode := ADMIN_SECURITY_SEND, cdw10 := SecurityDword10Of(secp, spsp),
                 cdw11 := tl, dataLen := file.value))
  }

  /** security-recv: as security-send with the allocation length `al` in cdw11. */
  function SecurityRecv(secp: u8, spsp: u16, al: u32, size: u32): (d: Descriptor)
    ensures OnlyDriverFields(d) && d.opcode == ADMIN_SECURITY_RECV && d.nsid == 0
    ensures DecodeSecurityDword10(d.cdw10) == SecurityDword10(secp, spsp, 0)
    ensures d.cdw11 == al && d.dataLen == size
  {
    SecurityDword10RoundTrip(secp, spsp);
    Zeroed.(opcode := ADMIN_SECURITY_RECV, cdw10 := SecurityDword10Of(secp, spsp),
            cdw11 := al, dataLen := size)
  }

  /**
   * The security protocol field as written: both sec-send and sec-recv parse
   * option `-p` (long name `--secp`) as a 16-bit value into `spsp` and option
   * `-s` (`--spsp`) as a byte into `secp`, so the two arguments trade places.
   */
  function SecurityDword10FromOptionsAsWritten(secpArg: u16, spspArg: u8): (c: u32)
    ensures DecodeSecurityDword10(c) == SecurityDword10(spspArg, secpArg, 0)
  {
    SecurityDword10RoundTrip(spspArg, secpArg);
    SecurityDword10Of(spspArg, secpArg)
  }

  /** `--secp=0xef` (the ATA protocol) goes out with protocol 0 and 0xef as the protocol-specific value. */
  lemma SecurityProtocolMisplaced()
    ensures DecodeSecurityDword10(SecurityDword10FromOptionsAsWritten(0xef, 0)).secp == 0
    ensures DecodeSecurityDword10(SecurityDword10FromOptionsAsWritten(0xef, 0)).spsp == 0xef
  {
  }

  /** With each option stored in its own field, the protocol argument is the protocol field. */
  function SecurityDword10FromOptions(secpArg: u8, spspArg: u16): (c: u32)
    ensures DecodeSecurityDword10(c) == SecurityDword10(secpArg, spspArg, 0)
    ensures DecodeSecurityDword10(c).secp == secpArg
  {
    SecurityDword10RoundTrip(secpArg, spspArg);
    SecurityDword10Of(secpArg, spspArg)
  }
}

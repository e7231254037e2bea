/**
 * Encoders for the four reservation commands of the NVM command set
 * (NVM Express 1.2, sections 6.10-6.13): Reservation Acquire, Register,
 * Release and Report. Each driver range-checks its byte-sized options,
 * packs them into cdw10 and points the command at a small payload of
 * 64-bit keys (or, for Report, at the buffer the status is returned in).
 *
 * Acquire, Register, Release and Report take the namespace id the driver
 * has already settled on. The drivers as a whole (AcquireDriver and the
 * others) settle it first, with the lookup as written
 * (Command.SettleNsidAsWritten), and only then check their options.
 */
module Reservation {
  import opened Bits
  import opened Command

  /** A reservation command together with the keys its data pointer addresses. */
  datatype KeyedCommand = KeyedCommand(cmd: Descriptor, keys: seq<u64>)

  // ------------------------------------------------- Acquire and Release

  /**
   * Acquire and Release cdw10: the action (RACQA or RRELA) in bits 2:0, the
   * Ignore Existing Key bit 3, the reservation type in bits 15:8; the other
   * bits are reserved.
   */
  datatype TypedDword10 = TypedDword10(action: nat, iekey: nat, rtype: nat, reserved: nat, high: nat)

  function DecodeTypedDword10(c: u32): TypedDword10
  {
    TypedDword10(Field(c, 0, 3), Field(c, 3, 1), Field(c, 8, 8), Field(c, 4, 4), Field(c, 16, 16))
  }

  /** `rtype << 8 | iekey << 3 | action`. */
  function TypedDword10Of(rtype: u8, iekey: u8, action: u8): u32
  {
    Or32(Or32(Shl(rtype, 8), Shl(iekey, 3)), action)
  }

  lemma TypedDword10RoundTrip(rtype: u8, iekey: u8, action: u8)
    requires iekey <= 1 && action <= 7
    ensures TypedDword10Of(rtype, iekey, action) == 0x100 * rtype + 8 * iekey + action
    ensures DecodeTypedDword10(TypedDword10Of(rtype, iekey, action)) == TypedDword10(action, iekey, rtype, 0, 0)
  {
    TypedDword10Packs(rtype, iekey, action);
    TypedDword10Fields(TypedDword10Of(rtype, iekey, action), rtype, iekey, action);
  }

  /** The three fields do not overlap, so the ORs are additions. */
  lemma TypedDword10Packs(rtype: u8, iekey: u8, action: u8)
    requires iekey <= 1 && action <= 7
    ensures TypedDword10Of(rtype, iekey, action) == 0x100 * rtype + 8 * iekey + action
  {
    var hi := 0x100 * rtype + 8 * iekey;
    PowersOfTwo();
    assert Or32(Shl(rtype, 8), Shl(iekey, 3)) == hi by {
      ShlAt(rtype, 8, 0x100);
      ShlAt(iekey, 3, 8);
      OrAt(rtype, 8 * iekey, 8, 0x100);
    }
    assert Or32(hi, action) == hi + action by {
      var m := 32 * rtype + iekey;
      assert m * 8 == hi;
      OrAt(m, action, 3, 8);
    }
  }

  lemma TypedDword10Fields(c: u32, rtype: u8, iekey: u8, action: u8)
    requires iekey <= 1 && action <= 7 && c == 0x100 * rtype + 8 * iekey + action
    ensures DecodeTypedDword10(c) == TypedDword10(action, iekey, rtype, 0, 0)
  {
    PowersOfTwo();
    FieldAt(c, 32 * rtype + iekey, action, 0, 0, 3, 1, 8);
    FieldAt(c, 16 * rtype, iekey, action, 3, 1, 8, 2);
    FieldAt(c, rtype, 0, 8 * iekey + action, 4, 4, 16, 16);
    FieldAt(c, 0, rtype, 8 * iekey + action, 8, 8, 0x100, 0x100);
    FieldAt(c, 0, 0, c, 16, 16, 0x1_0000, 0x1_0000);
  }

  /**
   * resv-acquire: an acquire action above 7 is EINVAL. The command carries
   * the current and the preempt key (16 bytes). `iekey` is a flag option,
   * so it is 0 or 1.
   */
  function Acquire(nsid: u32, crkey: u64, prkey: u64, rtype: u8, racqa: u8, iekey: bool): (r: Result<KeyedCommand>)
    ensures r.Err? <==> racqa > 7
    ensures r.Ok? ==> OnlyDriverFields(r.value.cmd) && r.value.cmd.opcode == IO_RESV_ACQUIRE
    ensures r.Ok? ==> r.value.cmd.nsid == nsid && r.value.cmd.cdw11 == 0
    ensures r.Ok? ==> r.value.keys == [crkey, prkey] && r.value.cmd.dataLen == 8 * |r.value.keys|
    ensures r.Ok? ==> DecodeTypedDword10(r.value.cmd.cdw10) ==
                      TypedDword10(racqa, if iekey then 1 else 0, rtype, 0, 0)
  {
    if racqa > 7 then Err(EINVAL)
    else
      var ie := if iekey then 1 else 0;
      TypedDword10RoundTrip(rtype, ie, racqa);
      Ok(KeyedCommand(Zeroed.(opcode := IO_RESV_ACQUIRE, nsid := nsid,
                              cdw10 := TypedDword10Of(rtype, ie, racqa), dataLen := 16),
                      [crkey, prkey]))
  }

  /**
   * resv-release: an Ignore Existing Key above 1 or a release action above 7
   * is EINVAL. The command carries the current key alone (8 bytes).
   */
  function Release(nsid: u32, crkey: u64, rtype: u8, rrela: u8, iekey: u8): (r: Result<KeyedCommand>)
    ensures r.Err? <==> iekey > 1 || rrela > 7
    ensures r.Ok? ==> OnlyDriverFields(r.value.cmd) && r.value.cmd.opcode == IO_RESV_RELEASE
    ensures r.Ok? ==> r.value.cmd.nsid == nsid && r.value.cmd.cdw11 == 0
    ensures r.Ok? ==> r.value.keys == [crkey] && r.value.cmd.dataLen == 8 * |r.value.keys|
    ensures r.Ok? ==> DecodeTypedDword10(r.value.cmd.cdw10) == TypedDword10(rrela, iekey, rtype, 0, 0)
  {
    if iekey > 1 || rrela > 7 then Err(EINVAL)
    else
      TypedDword10RoundTrip(rtype, iekey, rrela);
      Ok(KeyedCommand(Zeroed.(opcode := IO_RESV_RELEASE, nsid := nsid,
                              cdw10 := TypedDword10Of(rtype, iekey, rrela), dataLen := 8),
                      [crkey]))
  }

  // ------------------------------------------------------------- Register

  /**
   * Register cdw10: the register action RREGA in bits 2:0, the Ignore
   * Existing Key bit 3, Change Persist Through Power Loss State in bits
   * 31:30; bits 29:4 are reserved.
   */
  datatype RegisterDword10 = RegisterDword10(rrega: nat, iekey: nat, cptpl: nat, reserved: nat)

  function DecodeRegisterDword10(c: u32): RegisterDword10
  {
    RegisterDword10(Field(c, 0, 3), Field(c, 3, 1), Field(c, 30, 2), Field(c, 4, 26))
  }

  /** `cptpl << 30 | iekey << 3 | rrega`. */
  function RegisterDword10Of(cptpl: u8, iekey: u8, rrega: u8): u32
  {
    Or32(Or32(Shl(cptpl, 30), Shl(iekey, 3)), rrega)
  }

  lemma RegisterDword10RoundTrip(cptpl: u8, iekey: u8, rrega: u8)
    requires cptpl <= 3 && iekey <= 1 && rrega <= 7
    ensures RegisterDword10Of(cptpl, iekey, rrega) == 0x4000_0000 * cptpl + 8 * iekey + rrega
    ensures DecodeRegisterDword10(RegisterDword10Of(cptpl, iekey, rrega)) == RegisterDword10(rrega, iekey, cptpl, 0)
  {
    RegisterDword10Packs(cptpl, iekey, rrega);
    RegisterDword10Fields(RegisterDword10Of(cptpl, iekey, rrega), cptpl, iekey, rrega);
  }

  lemma RegisterDword10Packs(cptpl: u8, iekey: u8, rrega: u8)
    requires cptpl <= 3 && iekey <= 1
    ensures rrega <= 7 ==> RegisterDword10Of(cptpl, iekey, rrega) == 0x4000_0000 * cptpl + 8 * iekey + rrega
    ensures cptpl == 0 && iekey == 0 ==> RegisterDword10Of(cptpl, iekey, rrega) == rrega
  {
    var hi := 0x4000_0000 * cptpl + 8 * iekey;
    PowersOfTwo();
    assert Or32(Shl(cptpl, 30), Shl(iekey, 3)) == hi by {
      ShlAt(cptpl, 30, 0x4000_0000);
      ShlAt(iekey, 3, 8);
      OrAt(cptpl, 8 * iekey, 30, 0x4000_0000);
    }
    if rrega <= 7 {
      assert Or32(hi, rrega) == hi + rrega by {
        var m := 0x800_0000 * cptpl + iekey;
        assert m * 8 == hi;
        OrAt(m, rrega, 3, 8);
      }
    }
  }

  /** Decoding any value below 2^30 written as action, key bit, reserved bits and CPTPL. */
  lemma RegisterDword10Fields(c: u32, cptpl: u8, iekey: u8, rrega: u8)
    requires cptpl <= 3 && iekey <= 1 && rrega <= 7 && c == 0x4000_0000 * cptpl + 8 * iekey + rrega
    ensures DecodeRegisterDword10(c) == RegisterDword10(rrega, iekey, cptpl, 0)
  {
    PowersOfTwo();
    FieldAt(c, 0x800_0000 * cptpl + iekey, rrega, 0, 0, 3, 1, 8);
    FieldAt(c, 0x400_0000 * cptpl, iekey, rrega, 3, 1, 8, 2);
    FieldAt(c, cptpl, 0, 8 * iekey + rrega, 4, 26, 16, 0x400_0000);
    FieldAt(c, 0, cptpl, 8 * iekey + rrega, 30, 2, 0x4000_0000, 4);
  }

  /**
   * resv-register as written: only iekey (above 1) and cptpl (above 3) are
   * checked, so a register action of 8 or more spills into the Ignore
   * Existing Key bit and the reserved bits.
   */
  function RegisterAsWritten(nsid: u32, crkey: u64, nrkey: u64, rrega: u8, iekey: u8, cptpl: u8): (r: Result<KeyedCommand>)
    ensures r.Err? <==> iekey > 1 || cptpl > 3
    ensures r.Ok? ==> OnlyDriverFields(r.value.cmd) && r.value.cmd.opcode == IO_RESV_REGISTER
    ensures r.Ok? ==> r.value.cmd.nsid == nsid && r.value.cmd.cdw11 == 0
    ensures r.Ok? ==> r.value.keys == [crkey, nrkey] && r.value.cmd.dataLen == 8 * |r.value.keys|
    ensures r.Ok? ==> r.value.cmd.cdw10 == RegisterDword10Of(cptpl, iekey, rrega)
  {
    if iekey > 1 || cptpl > 3 then Err(EINVAL)
    else
      Ok(KeyedCommand(Zeroed.(opcode := IO_RESV_REGISTER, nsid := nsid,
                              cdw10 := RegisterDword10Of(cptpl, iekey, rrega), dataLen := 16),
                      [crkey, nrkey]))
  }

  /**
   * `--rrega` from 8 to 15 without `--iekey` submits a command whose Ignore
   * Existing Key bit is set and whose action is `rrega - 8`.
   */
  lemma RegisterActionSpills(nsid: u32, crkey: u64, nrkey: u64, rrega: u8)
    requires 8 <= rrega <= 15
    ensures RegisterAsWritten(nsid, crkey, nrkey, rrega, 0, 0).Ok?
    ensures DecodeRegisterDword10(RegisterAsWritten(nsid, crkey, nrkey, rrega, 0, 0).value.cmd.cdw10)
            == RegisterDword10(rrega - 8, 1, 0, 0)
  {
    RegisterDword10Packs(0, 0, rrega);
    RegisterDword10Fields(RegisterDword10Of(0, 0, rrega), 0, 1, rrega - 8);
  }

  /**
   * resv-register with the register action checked like the other actions
   * (above 7 is EINVAL): every field decodes back. The command carries the
   * current and the new key (16 bytes).
   */
  function Register(nsid: u32, crkey: u64, nrkey: u64, rrega: u8, iekey: u8, cptpl: u8): (r: Result<KeyedCommand>)
    ensures r.Err? <==> iekey > 1 || cptpl > 3 || rrega > 7
    ensures r.Ok? ==> OnlyDriverFields(r.value.cmd) && r.value.cmd.opcode == IO_RESV_REGISTER
    ensures r.Ok? ==> r.value.cmd.nsid == nsid && r.value.cmd.cdw11 == 0
    ensures r.Ok? ==> r.value.keys == [crkey, nrkey] && r.value.cmd.dataLen == 8 * |r.value.keys|
    ensures r.Ok? ==> DecodeRegisterDword10(r.value.cmd.cdw10) == RegisterDword10(rrega, iekey, cptpl, 0)
    ensures r.Ok? ==> r == RegisterAsWritten(nsid, crkey, nrkey, rrega, iekey, cptpl)
  {
    if iekey > 1 || cptpl > 3 || rrega > 7 then Err(EINVAL)
    else
      RegisterDword10RoundTrip(cptpl, iekey, rrega);
      RegisterAsWritten(nsid, crkey, nrkey, rrega, iekey, cptpl)
  }

  // --------------------------------------------------------------- Report

  /** The largest status buffer resv-report asks for: `0x1000 >> 2` dwords, one 4 KiB page. */
  const REPORT_MAX_NUMD: u32 := 1024

  /**
   * The Reservation Status data structure starts with a 24-byte header
   * (generation, type, number of registered controllers, persist-through-
   * power-loss state) that the report printer reads.
   */
  const RESV_STATUS_HEADER_SIZE: nat := 24

  /** A zero or over-large dword count becomes 1024. */
  function ClampNumd(numd: u32): (r: u32)
    ensures 1 <= r <= REPORT_MAX_NUMD
    ensures 1 <= numd <= REPORT_MAX_NUMD ==> r == numd
  {
    if numd == 0 || numd > REPORT_MAX_NUMD then REPORT_MAX_NUMD else numd
  }

  /** Clamping twice is clamping once. */
  lemma ClampIdempotent(numd: u32)
    ensures ClampNumd(ClampNumd(numd)) == ClampNumd(numd)
    ensures numd == 0 || numd > REPORT_MAX_NUMD ==> ClampNumd(numd) == REPORT_MAX_NUMD
  {
  }

  /**
   * resv-report for an explicit `numd`: cdw10 holds the clamped dword count
   * and the transfer is that many dwords (`numd << 2`), at most one page.
   */
  function Report(nsid: u32, numd: u32): (d: Descriptor)
    ensures OnlyDriverFields(d) && d.opcode == IO_RESV_REPORT && d.nsid == nsid && d.cdw11 == 0
    ensures d.cdw10 == ClampNumd(numd) && d.dataLen == 4 * d.cdw10
    ensures 4 <= d.dataLen <= 4096
  {
    var n := ClampNumd(numd);
    ShlNoWrap(n, 2);
    PowersOfTwo();
    Zeroed.(opcode := IO_RESV_REPORT, nsid := nsid, cdw10 := n, dataLen := Shl(n, 2))
  }

  // ------------------------------------------------------- The drivers

  /*
   * Each reservation driver settles the namespace before it checks any
   * option: `given` is the `--namespace-id` option (0 when absent),
   * `isBlock` whether the device is a block device and `idRet` what
   * NVME_IOCTL_ID returns there.
   */

  /** resv-acquire: the lookup's errors first, then the acquire action's range. */
  function AcquireDriver(given: u32, isBlock: bool, idRet: i32, crkey: u64, prkey: u64, rtype: u8, racqa: u8, iekey: bool)
    : (r: Result<KeyedCommand>)
    ensures r == Err(ENOTBLK) <==> given == 0 && !isBlock
    ensures r == Err(IoctlErrno) <==> given == 0 && isBlock && idRet == 0
    ensures r == Err(EINVAL) <==> SettleNsidAsWritten(given, isBlock, idRet).Ok? && racqa > 7
    ensures r.Ok? ==> r == Acquire(SettleNsidAsWritten(given, isBlock, idRet).value, crkey, prkey, rtype, racqa, iekey)
  {
    var nsid := SettleNsidAsWritten(given, isBlock, idRet);
    if nsid.Err? then Err(nsid.error) else Acquire(nsid.value, crkey, prkey, rtype, racqa, iekey)
  }

  /** resv-register: the lookup's errors first, then iekey and cptpl; rrega stays unchecked. */
  function RegisterDriver(given: u32, isBlock: bool, idRet: i32, crkey: u64, nrkey: u64, rrega: u8, iekey: u8, cptpl: u8)
    : (r: Result<KeyedCommand>)
    ensures r == Err(ENOTBLK) <==> given == 0 && !isBlock
    ensures r == Err(IoctlErrno) <==> given == 0 && isBlock && idRet == 0
    ensures r == Err(EINVAL) <==> SettleNsidAsWritten(given, isBlock, idRet).Ok? && (iekey > 1 || cptpl > 3)
    ensures r.Ok? ==> r == RegisterAsWritten(SettleNsidAsWritten(given, isBlock, idRet).value, crkey, nrkey, rrega, iekey, cptpl)
  {
    var nsid := SettleNsidAsWritten(given, isBlock, idRet);
    if nsid.Err? then Err(nsid.error) else RegisterAsWritten(nsid.value, crkey, nrkey, rrega, iekey, cptpl)
  }

  /** resv-release: the lookup's errors first, then iekey and the release action. */
  function ReleaseDriver(given: u32, isBlock: bool, idRet: i32, crkey: u64, rtype: u8, rrela: u8, iekey: u8)
    : (r: Result<KeyedCommand>)
    ensures r == Err(ENOTBLK) <==> given == 0 && !isBlock
    ensures r == Err(IoctlErrno) <==> given == 0 && isBlock && idRet == 0
    ensures r == Err(EINVAL) <==> SettleNsidAsWritten(given, isBlock, idRet).Ok? && (iekey > 1 || rrela > 7)
    ensures r.Ok? ==> r == Release(SettleNsidAsWritten(given, isBlock, idRet).value, crkey, rtype, rrela, iekey)
  {
    var nsid := SettleNsidAsWritten(given, isBlock, idRet);
    if nsid.Err? then Err(nsid.error) else Release(nsid.value, crkey, rtype, rrela, iekey)
  }

  /** resv-report: the lookup's errors are the only ones; the count is clamped, never refused. */
  function ReportDriver(given: u32, isBlock: bool, idRet: i32, numd: u32): (r: Result<Descriptor>)
    ensures r == Err(ENOTBLK) <==> given == 0 && !isBlock
    ensures r == Err(IoctlErrno) <==> given == 0 && isBlock && idRet == 0
    ensures r.Ok? <==> SettleNsidAsWritten(given, isBlock, idRet).Ok?
    ensures r.Ok? ==> r.value == Report(SettleNsidAsWritten(given, isBlock, idRet).value, numd)
  {
    var nsid := SettleNsidAsWritten(given, isBlock, idRet);
    if nsid.Err? then Err(nsid.error) else Ok(Report(nsid.value, numd))
  }

  /**
   * On a character device without `--namespace-id`, `--racqa=9` stops with
   * ENOTBLK: the namespace is settled before the action is checked.
   */
  lemma LookupPrecedesChecks(crkey: u64, prkey: u64, rtype: u8)
    ensures AcquireDriver(0, false, 0, crkey, prkey, rtype, 9, false) == Err(ENOTBLK)
    ensures AcquireDriver(1, false, 0, crkey, prkey, rtype, 9, false) == Err(EINVAL)
  {
  }

  /**
   * A failing NVME_IOCTL_ID (-1) sends every reservation command to
   * namespace 0xffffffff (one lemma per driver below); the corrected lookup
   * stops with its errno.
   */
  lemma LookupErrorBroadcast(crkey: u64, key: u64, numd: u32)
    ensures AcquireDriver(0, true, -1, crkey, key, 0, 0, false).Ok?
    ensures RegisterDriver(0, true, -1, crkey, key, 0, 0, 0).Ok?
    ensures ReleaseDriver(0, true, -1, crkey, 0, 0, 0).Ok?
    ensures ReportDriver(0, true, -1, numd).Ok?
    ensures AcquireDriver(0, true, -1, crkey, key, 0, 0, false).value.cmd.nsid == 0xffff_ffff
    ensures RegisterDriver(0, true, -1, crkey, key, 0, 0, 0).value.cmd.nsid == 0xffff_ffff
    ensures ReleaseDriver(0, true, -1, crkey, 0, 0, 0).value.cmd.nsid == 0xffff_ffff
    ensures ReportDriver(0, true, -1, numd).value.nsid == 0xffff_ffff
    ensures SettleNsid(0, true, -1) == Err(IoctlErrno)
  {
    AcquireLookupErrorBroadcast(crkey, key);
    RegisterLookupErrorBroadcast(crkey, key);
    ReleaseLookupErrorBroadcast(crkey);
    ReportLookupErrorBroadcast(numd);
  }

  lemma AcquireLookupErrorBroadcast(crkey: u64, prkey: u64)
    ensures AcquireDriver(0, true, -1, crkey, prkey, 0, 0, false).Ok?
    ensures AcquireDriver(0, true, -1, crkey, prkey, 0, 0, false).value.cmd.nsid == 0xffff_ffff
  {
    FailedLookupSettles();
    AcquireOnAll(crkey, prkey);
  }

  lemma RegisterLookupErrorBroadcast(crkey: u64, nrkey: u64)
    ensures RegisterDriver(0, true, -1, crkey, nrkey, 0, 0, 0).Ok?
    ensures RegisterDriver(0, true, -1, crkey, nrkey, 0, 0, 0).value.cmd.nsid == 0xffff_ffff
  {
    FailedLookupSettles();
    RegisterOnAll(crkey, nrkey);
  }

  lemma ReleaseLookupErrorBroadcast(crkey: u64)
    ensures ReleaseDriver(0, true, -1, crkey, 0, 0, 0).Ok?
    ensures ReleaseDriver(0, true, -1, crkey, 0, 0, 0).value.cmd.nsid == 0xffff_ffff
  {
    FailedLookupSettles();
    ReleaseOnAll(crkey);
  }

  lemma ReportLookupErrorBroadcast(numd: u32)
    ensures ReportDriver(0, true, -1, numd).Ok?
    ensures ReportDriver(0, true, -1, numd).value.nsid == 0xffff_ffff
  {
    FailedLookupSettles();
    ReportOnAll(numd);
  }

  // Each driver on the namespace a failed lookup settles on, one at a time.

  lemma FailedLookupSettles()
    ensures SettleNsidAsWritten(0, true, -1) == Ok(0xffff_ffff)
  {
  }

  lemma AcquireOnAll(crkey: u64, prkey: u64)
    requires SettleNsidAsWritten(0, true, -1) == Ok(0xffff_ffff)
    ensures AcquireDriver(0, true, -1, crkey, prkey, 0, 0, false) == Acquire(0xffff_ffff, crkey, prkey, 0, 0, false)
  {
  }

  lemma RegisterOnAll(crkey: u64, nrkey: u64)
    requires SettleNsidAsWritten(0, true, -1) == Ok(0xffff_ffff)
    ensures RegisterDriver(0, true, -1, crkey, nrkey, 0, 0, 0) == RegisterAsWritten(0xffff_ffff, crkey, nrkey, 0, 0, 0)
  {
  }

  lemma ReportOnAll(numd: u32)
    requires SettleNsidAsWritten(0, true, -1) == Ok(0xffff_ffff)
    ensures ReportDriver(0, true, -1, numd) == Ok(Report(0xffff_ffff, numd))
  {
  }

  lemma ReleaseOnAll(crkey: u64)
    requires SettleNsidAsWritten(0, true, -1) == Ok(0xffff_ffff)
    ensures ReleaseDriver(0, true, -1, crkey, 0, 0, 0) == Release(0xffff_ffff, crkey, 0, 0, 0)
  {
  }

  /** The int value of a C comparison. */
  function CBool(b: bool): (r: nat)
    ensures r == 1 <==> b
    ensures r == 0 <==> !b
  {
    if b then 1 else 0
  }

  /** The initial `numd` as written: `0x1000 > 2`, a comparison, whose value is 1. */
  function DefaultNumdAsWritten(): (r: u32)
    ensures r == 1
  {
    CBool(0x1000 > 2)
  }

  /** The initial `numd` the clamp's constant suggests: `0x1000 >> 2`. */
  function DefaultNumd(): (r: u32)
    ensures r == REPORT_MAX_NUMD
  {
    0x1000 / 4
  }

  /**
   * Without `--numd`, the report as written transfers a single dword, less
   * than the status header it then prints; with the intended default the
   * whole page is transferred.
   */
  lemma DefaultReportTooShort(nsid: u32)
    ensures Report(nsid, DefaultNumdAsWritten()).dataLen == 4 < RESV_STATUS_HEADER_SIZE
    ensures Report(nsid, DefaultNumd()).dataLen == 4096 >= RESV_STATUS_HEADER_SIZE
  {
  }

  /** The options resv-report's getopt loop can be handed, already split. */
  datatype ReportOption =
    | NamespaceOpt(nsid: u32)  // -n, --namespace-id
    | NumdOpt(numd: u32)       // -d, --numd
    | ShortR                   // -r
    | RawBinary                // --raw-binary: getopt_long returns 'b', which has no case
    | Unrecognised             // anything else: '?'

  datatype ReportArgs = ReportArgs(nsid: u32, numd: u32, raw: bool)

  /** One pass of the switch in resv-report's option loop. */
  function ReportStep(a: ReportArgs, o: ReportOption): (r: Result<ReportArgs>)
    ensures r.Err? <==> o.RawBinary? || o.Unrecognised?
    ensures r.Ok? && r.value.raw ==> a.raw
    ensures r.Ok? && o.ShortR? ==> !r.value.raw
  {
    match o
    case NamespaceOpt(n) => Ok(a.(nsid := n))
    case NumdOpt(n) => Ok(a.(numd := n))
    case ShortR => Ok(a.(raw := false))
    case RawBinary => Err(EINVAL)
    case Unrecognised => Err(EINVAL)
  }

  const REPORT_INITIAL: ReportArgs := ReportArgs(0, DefaultNumdAsWritten(), false)

  /** The arguments after the first `k` options, or EINVAL at the first one without a case. */
  function ReportArgsAfter(opts: seq<ReportOption>, k: nat): Result<ReportArgs>
    requires k <= |opts|
  {
    if k == 0 then Ok(REPORT_INITIAL)
    else match ReportArgsAfter(opts, k - 1)
      case Err(e) => Err(e)
      case Ok(a) => ReportStep(a, opts[k - 1])
  }

  /** resv-report's option loop. */
  method ParseReportOptions(opts: seq<ReportOption>) returns (r: Result<ReportArgs>)
    ensures r == ReportArgsAfter(opts, |opts|)
    ensures r.Ok? ==> !r.value.raw
  {
    var args := REPORT_INITIAL;
    var i := 0;
    while i < |opts|
      invariant i <= |opts|
      invariant ReportArgsAfter(opts, i) == Ok(args)
      invariant !args.raw
    {
      var next := ReportStep(args, opts[i]);
      if next.Err? {
        ErrorSticks(opts, i + 1);
        return next;
      }
      args := next.value;
      i := i + 1;
    }
    return Ok(args);
  }

  /** Once an option has been refused, the loop's result is that refusal. */
  lemma {:induction false} ErrorSticks(opts: seq<ReportOption>, k: nat)
    requires k <= |opts| && ReportArgsAfter(opts, k).Err?
    ensures ReportArgsAfter(opts, |opts|) == ReportArgsAfter(opts, k)
    decreases |opts| - k
  {
    if k < |opts| {
      ErrorSticks(opts, k + 1);
    }
  }

  /** No sequence of options turns the raw dump on: the report is always printed decoded. */
  lemma {:induction false} RawNeverSet(opts: seq<ReportOption>, k: nat)
    requires k <= |opts|
    ensures ReportArgsAfter(opts, k).Ok? ==> !ReportArgsAfter(opts, k).value.raw
  {
    if k > 0 {
      RawNeverSet(opts, k - 1);
    }
  }

  /** Options that never mention `--numd` leave the default of one dword in place. */
  lemma {:induction false} NumdDefaultKept(opts: seq<ReportOption>, k: nat)
    requires k <= |opts|
    requires forall i :: 0 <= i < k ==> !opts[i].NumdOpt?
    ensures ReportArgsAfter(opts, k).Ok? ==> ReportArgsAfter(opts, k).value.numd == 1
  {
    if k > 0 {
      NumdDefaultKept(opts, k - 1);
    }
  }

  /**
   * The switch with its raw flag wired as the option names promise: `-r`
   * and `--raw-binary` both ask for the raw dump; only an unrecognised
   * option is EINVAL.
   */
  function ReportStepIntended(a: ReportArgs, o: ReportOption): (r: Result<ReportArgs>)
    ensures r.Err? <==> o.Unrecognised?
    ensures r.Ok? ==> (r.value.raw <==> a.raw || o.ShortR? || o.RawBinary?)
    ensures r.Ok? && !o.ShortR? && !o.RawBinary? ==> r == ReportStep(a, o)
  {
    match o
    case ShortR => Ok(a.(raw := true))
    case RawBinary => Ok(a.(raw := true))
    case _ => ReportStep(a, o)
  }

  /** `-r` clears the raw flag as written and sets it once corrected. */
  lemma RawOptionIgnored(a: ReportArgs)
    ensures ReportStep(a, ShortR) == Ok(a.(raw := false))
    ensures ReportStepIntended(a, ShortR) == Ok(a.(raw := true))
  {
  }
}

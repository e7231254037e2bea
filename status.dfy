/**
 * `nvme_status_to_string`: the name of an NVMe completion status.
 *
 * A status as the driver sees it is the value the ioctl returned: bits 7:0
 * are the Status Code and bits 10:8 the Status Code Type of the completion
 * queue entry (NVM Express 1.2, section 4.6.1.2). Only the low ten bits
 * take part in the lookup (`status & 0x3ff`), so the More and Do Not Retry
 * bits above them never change the name.
 *
 * The switch is modelled in two steps: `Classify` picks the case label (an
 * enumeration with one value per `NVME_SC_*` label and one for `default`),
 * and `Text` is the string that case returns.
 */
module Status {
  import opened Bits

  /** The case labels of the switch, and `default`. */
  datatype StatusCode =
    | Success
    | InvalidOpcode
    | InvalidField
    | CmdIdConflict
    | DataXferError
    | PowerLoss
    | Internal
    | AbortReq
    | AbortQueue
    | FusedFail
    | FusedMissing
    | InvalidNs
    | CmdSeqError
    | LbaRange
    | CapExceeded
    | NsNotReady
    | CqInvalid
    | QidInvalid
    | QueueSize
    | AbortLimit
    | AbortMissing
    | AsyncLimit
    | FirmwareSlot
    | FirmwareImage
    | InvalidVector
    | InvalidLogPage
    | InvalidFormat
    | BadAttributes
    | WriteFault
    | ReadError
    | GuardCheck
    | AppTagCheck
    | RefTagCheck
    | CompareFailed
    | AccessDenied
    | Unknown

  /** The status values that have a case of their own (NVM Express 1.2, figures 31-33 and 35). */
  const KNOWN_STATUS: set<nat> := {
    0x0, 0x1, 0x2, 0x3, 0x4, 0x5, 0x6, 0x7, 0x8, 0x9, 0xa, 0xb, 0xc,
    0x80, 0x81, 0x82,
    0x100, 0x101, 0x102, 0x103, 0x104, 0x105, 0x106, 0x107, 0x108, 0x109, 0x10a,
    0x180,
    0x280, 0x281, 0x282, 0x283, 0x284, 0x285, 0x286
  }

  /** The case a masked status falls into. */
  function Classify(code: nat): StatusCode
  {
    match code
    // Generic command status (status code type 0).
    case 0x0 => Success
    case 0x1 => InvalidOpcode
    case 0x2 => InvalidField
    case 0x3 => CmdIdConflict
    case 0x4 => DataXferError
    case 0x5 => PowerLoss
    case 0x6 => Internal
    case 0x7 => AbortReq
    case 0x8 => AbortQueue
    case 0x9 => FusedFail
    case 0xa => FusedMissing
    case 0xb => InvalidNs
    case 0xc => CmdSeqError
    case 0x80 => LbaRange
    case 0x81 => CapExceeded
    case 0x82 => NsNotReady
    // Command specific status (status code type 1).
    case 0x100 => CqInvalid
    case 0x101 => QidInvalid
    case 0x102 => QueueSize
    case 0x103 => AbortLimit
    case 0x104 => AbortMissing
    case 0x105 => AsyncLimit
    case 0x106 => FirmwareSlot
    case 0x107 => FirmwareImage
    case 0x108 => InvalidVector
    case 0x109 => InvalidLogPage
    case 0x10a => InvalidFormat
    case 0x180 => BadAttributes
    // Media errors (status code type 2).
    case 0x280 => WriteFault
    case 0x281 => ReadError
    case 0x282 => GuardCheck
    case 0x283 => AppTagCheck
    case 0x284 => RefTagCheck
    case 0x285 => CompareFailed
    case 0x286 => AccessDenied
    case _ => Unknown
  }

  /** The status value of each named case. */
  function Value(s: StatusCode): nat
    requires !s.Unknown?
  {
    match s
    case Success => 0x0
    case InvalidOpcode => 0x1
    case InvalidField => 0x2
    case CmdIdConflict => 0x3
    case DataXferError => 0x4
    case PowerLoss => 0x5
    case Internal => 0x6
    case AbortReq => 0x7
    case AbortQueue => 0x8
    case FusedFail => 0x9
    case FusedMissing => 0xa
    case InvalidNs => 0xb
    case CmdSeqError => 0xc
    case LbaRange => 0x80
    case CapExceeded => 0x81
    case NsNotReady => 0x82
    case CqInvalid => 0x100
    case QidInvalid => 0x101
    case QueueSize => 0x102
    case AbortLimit => 0x103
    case AbortMissing => 0x104
    case AsyncLimit => 0x105
    case FirmwareSlot => 0x106
    case FirmwareImage => 0x107
    case InvalidVector => 0x108
    case InvalidLogPage => 0x109
    case InvalidFormat => 0x10a
    case BadAttributes => 0x180
    case WriteFault => 0x280
    case ReadError => 0x281
    case GuardCheck => 0x282
    case AppTagCheck => 0x283
    case RefTagCheck => 0x284
    case CompareFailed => 0x285
    case AccessDenied => 0x286
  }

  /** The string each case returns. */
  function Text(s: StatusCode): string
  {
    match s
    case Success => "SUCCESS"
    case InvalidOpcode => "INVALID_OPCODE"
    case InvalidField => "INVALID_FIELD"
    case CmdIdConflict => "CMDID_CONFLICT"
    case DataXferError => "DATA_XFER_ERROR"
    case PowerLoss => "POWER_LOSS"
    case Internal => "INTERNAL"
    case AbortReq => "ABORT_REQ"
    case AbortQueue => "ABORT_QUEUE"
    case FusedFail => "FUSED_FAIL"
    case FusedMissing => "FUSED_MISSING"
    case InvalidNs => "INVALID_NS"
    case CmdSeqError => "CMD_SEQ_ERROR"
    case LbaRange => "LBA_RANGE"
    case CapExceeded => "CAP_EXCEEDED"
    case NsNotReady => "NS_NOT_READY"
    case CqInvalid => "CQ_INVALID"
    case QidInvalid => "QID_INVALID"
    case QueueSize => "QUEUE_SIZE"
    case AbortLimit => "ABORT_LIMIT"
    case AbortMissing => "ABORT_MISSING"
    case AsyncLimit => "ASYNC_LIMIT"
    case FirmwareSlot => "FIRMWARE_SLOT"
    case FirmwareImage => "FIRMWARE_IMAGE"
    case InvalidVector => "INVALID_VECTOR"
    case InvalidLogPage => "INVALID_LOG_PAGE"
    case InvalidFormat => "INVALID_FORMAT"
    case BadAttributes => "BAD_ATTRIBUTES"
    case WriteFault => "WRITE_FAULT"
    case ReadError => "READ_ERROR"
    case GuardCheck => "GUARD_CHECK"
    case AppTagCheck => "APPTAG_CHECK"
    case RefTagCheck => "REFTAG_CHECK"
    case CompareFailed => "COMPARE_FAILED"
    case AccessDenied => "ACCESS_DENIED"
    case Unknown => "Unknown"
  }

  /** Each named case is the case of its own value, and a value outside the table is Unknown. */
  lemma ClassifyRoundTrip(code: nat)
    ensures code in KNOWN_STATUS <==> !Classify(code).Unknown?
    ensures code in KNOWN_STATUS ==> Value(Classify(code)) == code
  {
    if code in KNOWN_STATUS {
      KnownRoundTrip(code);
    } else {
      UnknownCode(code);
    }
  }

  lemma KnownRoundTrip(code: nat)
    requires code in KNOWN_STATUS
    ensures !Classify(code).Unknown? && Value(Classify(code)) == code
  {
    if code < 0x100 {
      GenericRoundTrip(code);
    } else if code < 0x200 {
      CommandSpecificRoundTrip(code);
    } else {
      MediaRoundTrip(code);
    }
  }

  lemma GenericRoundTrip(code: nat)
    requires code in KNOWN_STATUS && code < 0x100
    ensures !Classify(code).Unknown? && Value(Classify(code)) == code
  {
  }

  lemma CommandSpecificRoundTrip(code: nat)
    requires code in KNOWN_STATUS && 0x100 <= code < 0x200
    ensures !Classify(code).Unknown? && Value(Classify(code)) == code
  {
  }

  lemma MediaRoundTrip(code: nat)
    requires code in KNOWN_STATUS && 0x200 <= code
    ensures !Classify(code).Unknown? && Value(Classify(code)) == code
  {
  }

  lemma UnknownCode(code: nat)
    requires code !in KNOWN_STATUS
    ensures Classify(code).Unknown?
  {
  }

  lemma ValueRoundTrip(s: StatusCode)
    requires !s.Unknown?
    ensures Value(s) in KNOWN_STATUS && Classify(Value(s)) == s
  {
  }

  /** Only the default case prints "Unknown". */
  lemma TextUnknown(s: StatusCode)
    ensures Text(s) == "Unknown" <==> s.Unknown?
  {
  }

  /**
   * `nvme_status_to_string(status)`: total over every status word. A masked
   * status with a case of its own gets that case's string, and every other
   * one is "Unknown".
   */
  function StatusName(status: u32): (r: string)
    ensures r == "Unknown" <==> status % 0x400 !in KNOWN_STATUS
    ensures forall s: StatusCode :: !s.Unknown? && Value(s) == status % 0x400 ==> r == Text(s)
  {
    ClassifyRoundTrip(status % 0x400);
    TextUnknown(Classify(status % 0x400));
    forall s: StatusCode | !s.Unknown? && Value(s) == status % 0x400
      ensures Classify(status % 0x400) == s
    {
      ValueRoundTrip(s);
    }
    Text(Classify(status % 0x400))
  }

  /** Two statuses that agree in their low ten bits get the same name. */
  lemma StatusNameLowBits(s: u32, t: u32)
    requires Field(s, 0, 10) == Field(t, 0, 10)
    ensures StatusName(s) == StatusName(t)
  {
    assert s % 0x400 == t % 0x400 by {
      PowersOfTwo();
    }
  }

  /**
   * The More (bit 13) and Do Not Retry (bit 14) flags, or anything else above
   * bit 9, do not change the name: `name(s) == name(s & 0x3ff)`.
   */
  lemma StatusNameIgnoresHighBits(code: u32, high: nat)
    requires code < 0x400 && code + 0x400 * high < U32_LIMIT
    ensures StatusName(code + 0x400 * high) == StatusName(code)
  {
    DivModUnique(0x400, high, code);
    assert (0x400 * high + code) % 0x400 == code;
    assert code % 0x400 == code;
  }

  /** An Invalid Field status returned with Do Not Retry set is still reported as INVALID_FIELD. */
  lemma DoNotRetryInvalidField()
    ensures StatusName(0x4002) == "INVALID_FIELD"
  {
    StatusNameIgnoresHighBits(0x2, 0x10);
  }
}

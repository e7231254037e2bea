/**
 * Get Features and Set Features: the `nvme_feature` helper, the checks of
 * `get_feature` and `set_feature`, and `nvme_feature_to_string`.
 */
module Features {
  import opened Bits
  import opened Command
  import opened Status

  // Feature identifiers (NVM Express 1.2, section 5.12.1, figure 103).
  const FEAT_ARBITRATION: u32 := 0x01
  const FEAT_POWER_MGMT: u32 := 0x02
  const FEAT_LBA_RANGE: u32 := 0x03
  const FEAT_TEMP_THRESH: u32 := 0x04
  const FEAT_ERR_RECOVERY: u32 := 0x05
  const FEAT_VOLATILE_WC: u32 := 0x06
  const FEAT_NUM_QUEUES: u32 := 0x07
  const FEAT_IRQ_COALESCE: u32 := 0x08
  const FEAT_IRQ_CONFIG: u32 := 0x09
  const FEAT_WRITE_ATOMIC: u32 := 0x0a
  const FEAT_ASYNC_EVENT: u32 := 0x0b
  const FEAT_SW_PROGRESS: u32 := 0x80

  const KNOWN_FEATURES: set<int> := {
    0x01, 0x02, 0x03, 0x04, 0x05, 0x06, 0x07, 0x08, 0x09, 0x0a, 0x0b, 0x80
  }

  /** The LBA Range Type feature returns a 4096-byte data structure. */
  const LBA_RANGE_DATA_SIZE: u32 := 4096

  // --------------------------------------------------------------- Naming

  /** `nvme_feature_to_string(feature)`. */
  function FeatureName(feature: int): string
  {
    match feature
    case 0x01 => "Arbitration"
    case 0x02 => "Power Management"
    case 0x03 => "LBA Range"
    case 0x04 => "Temperature Threshold"
    case 0x05 => "Error Recovery"
    case 0x06 => "Volatile Write Cache"
    case 0x07 => "Number of Queues"
    case 0x08 => "IRQ Coalescing"
    case 0x09 => "IRQ Configuration"
    case 0x0a => "Write Atomicity"
    case 0x0b => "Async Event"
    case 0x80 => "Software Progress"
    case _ => "Unknown"
  }

  /** The reverse lookup: which feature a printed name stands for. */
  function FeatureOfName(name: string): Option<int>
  {
    match name
    case "Arbitration" => Some(0x01)
    case "Power Management" => Some(0x02)
    case "LBA Range" => Some(0x03)
    case "Temperature Threshold" => Some(0x04)
    case "Error Recovery" => Some(0x05)
    case "Volatile Write Cache" => Some(0x06)
    case "Number of Queues" => Some(0x07)
    case "IRQ Coalescing" => Some(0x08)
    case "IRQ Configuration" => Some(0x09)
    case "Write Atomicity" => Some(0x0a)
    case "Async Event" => Some(0x0b)
    case "Software Progress" => Some(0x80)
    case _ => None
  }

  /**
   * Every known feature's name leads back to it, and only unknown features
   * are called "Unknown"; so distinct known features have distinct names.
   */
  lemma FeatureNameRoundTrip(feature: int)
    ensures feature in KNOWN_FEATURES ==> FeatureOfName(FeatureName(feature)) == Some(feature)
    ensures feature !in KNOWN_FEATURES <==> FeatureName(feature) == "Unknown"
  {
  }

  lemma FeatureNamesDistinct(f: int, g: int)
    requires f in KNOWN_FEATURES && g in KNOWN_FEATURES && f != g
    ensures FeatureName(f) != FeatureName(g)
  {
    FeatureNameRoundTrip(f);
    FeatureNameRoundTrip(g);
  }

  // ------------------------------------------------------------- Commands

  /**
   * `nvme_feature(opcode, buf, data_len, fid, nsid, cdw11, &result)`: the
   * command both get-feature and set-feature submit.
   */
  function FeatureCommand(opcode: u8, fid: u32, nsid: u32, cdw11: u32, dataLen: u32): (d: Descriptor)
    ensures OnlyDriverFields(d)
    ensures d.opcode == opcode && d.cdw10 == fid && d.nsid == nsid
    ensures d.cdw11 == cdw11 && d.dataLen == dataLen
  {
    Zeroed.(opcode := opcode, nsid := nsid, cdw10 := fid, cdw11 := cdw11, dataLen := dataLen)
  }

  /** Get Features cdw10 (NVM Express 1.2, section 5.9.1): FID 7:0, SEL 10:8. */
  datatype GetFeaturesDword10 = GetFeaturesDword10(fid: nat, sel: nat)

  function DecodeGetFeaturesDword10(c: u32): GetFeaturesDword10
  {
    GetFeaturesDword10(Field(c, 0, 8), Field(c, 8, 3))
  }

  /** `sel << 8 | f`. */
  function GetFeaturesDword10Of(sel: u8, f: u32): u32
  {
    Or32(Shl(sel, 8), f)
  }

  /**
   * For a feature id that fits its byte, the dword decodes to the id and the
   * select value; whatever the id, its low byte survives the OR.
   */
  lemma GetFeaturesDword10RoundTrip(sel: u8, f: u32)
    requires sel <= 7
    ensures GetFeaturesDword10Of(sel, f) % 0x100 == f % 0x100
    ensures f < 0x100 ==> GetFeaturesDword10Of(sel, f) == 0x100 * sel + f
    ensures f < 0x100 ==> DecodeGetFeaturesDword10(GetFeaturesDword10Of(sel, f)) == GetFeaturesDword10(f, sel)
  {
    PowersOfTwo();
    ShlAt(sel, 8, 0x100);
    assert GetFeaturesDword10Of(sel, f) % 0x100 == f % 0x100 by {
      OrLow(sel, f, 8);
    }
    if f < 0x100 {
      assert GetFeaturesDword10Of(sel, f) == 0x100 * sel + f by {
        OrAt(sel, f, 8, 0x100);
      }
      GetFeaturesFields(GetFeaturesDword10Of(sel, f), sel, f);
    }
  }

  lemma GetFeaturesFields(c: u32, sel: nat, f: nat)
    requires sel <= 7 && f < 0x100 && c == 0x100 * sel + f
    ensures DecodeGetFeaturesDword10(c) == GetFeaturesDword10(f, sel)
  {
    PowersOfTwo();
    FieldAt(c, sel, f, 0, 0, 8, 1, 0x100);
    FieldAt(c, 0, sel, f, 8, 3, 0x100, 8);
  }

  /**
   * get-feature: a select value above 7 or a missing (zero) feature id is
   * EINVAL; the LBA Range feature always transfers its 4096-byte structure,
   * any other feature the requested length.
   */
  function GetFeature(f: u32, sel: u8, nsid: u32, cdw11: u32, dataLen: u32): (r: Result<Descriptor>)
    ensures r.Err? <==> sel > 7 || f == 0
    ensures r.Ok? ==> OnlyDriverFields(r.value) && r.value.opcode == ADMIN_GET_FEATURES
    ensures r.Ok? ==> r.value.nsid == nsid && r.value.cdw11 == cdw11
    ensures r.Ok? ==> r.value.dataLen == (if f == FEAT_LBA_RANGE then LBA_RANGE_DATA_SIZE else dataLen)
    ensures r.Ok? ==> r.value.cdw10 == GetFeaturesDword10Of(sel, f)
    ensures r.Ok? && f < 0x100 ==>
              DecodeGetFeaturesDword10(r.value.cdw10) == GetFeaturesDword10(f, sel) && r.value.cdw10 < 0x800
  {
    if sel > 7 || f == 0 then Err(EINVAL)
    else
      var len := if f == FEAT_LBA_RANGE then LBA_RANGE_DATA_SIZE else dataLen;
      var cdw10 := GetFeaturesDword10Of(sel, f);
      GetFeaturesDword10RoundTrip(sel, f);
      Ok(FeatureCommand(ADMIN_GET_FEATURES, cdw10, nsid, cdw11, len))
  }

  /**
   * set-feature: the feature id goes to cdw10 unchanged and the value to
   * cdw11. A missing value or a missing (zero) feature id is EINVAL.
   */
  function SetFeature(f: u32, value: Option<u32>, nsid: u32, dataLen: u32): (r: Result<Descriptor>)
    ensures r.Err? <==> value.None? || f == 0
    ensures r.Ok? ==> OnlyDriverFields(r.value) && r.value.opcode == ADMIN_SET_FEATURES
    ensures r.Ok? ==> r.value.cdw10 == f && r.value.cdw11 == value.value && r.value.nsid == nsid
    ensures r.Ok? ==> r.value.dataLen == (if f == FEAT_LBA_RANGE then LBA_RANGE_DATA_SIZE else dataLen)
  {
    if value.None? || f == 0 then Err(EINVAL)
    else
      var len := if f == FEAT_LBA_RANGE then LBA_RANGE_DATA_SIZE else dataLen;
      Ok(FeatureCommand(ADMIN_SET_FEATURES, f, nsid, value.value, len))
  }

  /**
   * set-feature as written: "value given" is tracked in `int val = -1`, set
   * to `(int)v` when the option is parsed, so a given value whose signed
   * reading is -1 (0xffffffff) is taken for a missing one.
   */
  function SetFeatureAsWritten(f: u32, value: Option<u32>, nsid: u32, dataLen: u32): (r: Result<Descriptor>)
    ensures r.Err? <==> value.None? || Signed32(value.value) == -1 || f == 0
    ensures r.Ok? ==> r == SetFeature(f, value, nsid, dataLen)
  {
    var val := if value.None? then -1 else Signed32(value.value);
    if val == -1 || f == 0 then Err(EINVAL)
    else SetFeature(f, value, nsid, dataLen)
  }

  /** The value 0xffffffff, given explicitly, is refused as written and accepted once corrected. */
  lemma SetFeatureAllOnesRefused(f: u32, nsid: u32, dataLen: u32)
    requires f != 0
    ensures SetFeatureAsWritten(f, Some(0xffff_ffff), nsid, dataLen).Err?
    ensures SetFeature(f, Some(0xffff_ffff), nsid, dataLen).Ok?
  {
  }

  /** The corrected check refuses exactly what the written one refuses, except the all-ones value. */
  lemma SetFeatureAgreesElsewhere(f: u32, value: Option<u32>, nsid: u32, dataLen: u32)
    requires value != Some(0xffff_ffff)
    ensures SetFeatureAsWritten(f, value, nsid, dataLen) == SetFeature(f, value, nsid, dataLen)
  {
    if value.Some? {
      assert Signed32(value.value) % U32_LIMIT == value.value;
    }
  }

  // -------------------------------------------------------------- Results

  /** What a get-feature or set-feature run reports once the ioctl has returned. */
  datatype FeatureReport =
    | Value(fid: u32, name: string, value: u32)   // err == 0: the feature and its result dword
    | StatusError(status: string)                  // err > 0: the NVMe status name
    | HostError(err: int)                          // err < 0: the ioctl itself failed

  /**
   * The report after a completion. `nvme_feature` copies the result dword
   * only when `err >= 0`, and it is shown only when `err == 0`, so the value
   * shown is always the completion's own.
   */
  function Report(f: u32, c: Completion): (r: FeatureReport)
    ensures r.Value? <==> c.err == 0
    ensures r.Value? ==> r.fid == f && r.value == c.result && r.name == FeatureName(f)
    ensures r.StatusError? <==> c.err > 0
    ensures r.StatusError? ==> r.status == StatusName(c.err)
    ensures r.HostError? <==> c.err < 0
  {
    if c.err == 0 then Value(f, FeatureName(f), c.result)
    else if c.err > 0 then StatusError(StatusName(c.err))
    else HostError(c.err)
  }

  /**
   * Reading the Number of Queues feature: feature 7 with the current value
   * selected is submitted with cdw10 == 7 ...
   */
  lemma NumberOfQueuesCommand(nsid: u32, cdw11: u32, dataLen: u32)
    ensures GetFeature(FEAT_NUM_QUEUES, 0, nsid, cdw11, dataLen).Ok?
    ensures GetFeature(FEAT_NUM_QUEUES, 0, nsid, cdw11, dataLen).value.cdw10 == 7
  {
    assert GetFeaturesDword10Of(0, 7) == 7 by {
      GetFeaturesDword10RoundTrip(0, 7);
    }
  }

  /**
   * ... and a completion of (0, 0x001f001f) is shown as that value: 32
   * submission and 32 completion queues, both counted from 0.
   */
  lemma NumberOfQueuesReport()
    ensures Report(FEAT_NUM_QUEUES, Completion(0, 0x001f_001f))
              == Value(7, "Number of Queues", 0x001f_001f)
  {
  }
}

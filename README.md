# nvme-cli command encoders and response decoders

A Dafny model of the layer inside nvme-cli's `nvme.c` that turns the
parsed options of a sub-command into an NVMe command descriptor, and of the
small decoders it applies to what the device returns.

- **Command** (`command.dfy`): the zeroed `struct nvme_admin_cmd` /
  `nvme_passthru_cmd` (`Descriptor`), the opcodes, the completion an ioctl
  gives back, and how a driver settles on a namespace id.
- **Admin** (`admin.dfy`): Identify, Get Log Page (get-log, smart-log,
  fw-log, error-log), Format NVM, Firmware Activate, Security Send and
  Receive. Each encoder performs the driver's range checks (EINVAL before
  anything is submitted). Each command dword has a decoder that follows the
  NVM Express 1.2 field map, and decoding what the encoder packed gives back
  its inputs.
- **Features** (`features.dfy`): `nvme_feature`, the checks of
  get-feature and set-feature, the Get Features dword, the report printed
  after the completion, and `nvme_feature_to_string`.
- **Firmware** (`firmware.dfy`): the fw-download loop as a method. It is
  proved equal to a plan of commands that covers the image exactly, with
  each command's NUMD and dword offset right.
- **Io** (`io.dfy`): the read/write/compare control word, the
  `struct nvme_user_io` request, flush, and the direction check of
  io-passthru and admin-passthru.
- **Reservation** (`reservation.dfy`): Reservation Acquire, Register,
  Release and Report, the four drivers that settle the namespace before
  checking their options, and resv-report's option loop.
- **Status** (`status.dfy`): `nvme_status_to_string`, a total
  classification of the low ten bits of a status.
- **Decode** (`decode.dfy`): the 128-bit SMART counters, the temperature,
  the registered-controller count, `fw_to_string`, the text column of the
  hex dump `d()` (a method over the `ascii` array) and the raw dump `d_raw`.
- **Bits** (`bits.dfy`): C's 32-bit `unsigned int` arithmetic, `<<`, `|`
  and field extraction, written out over integers.

The ioctl is not modelled; it enters as a parameter. In `Features.Report`
it is the completion. In `Firmware.Download` it is the function `respond`,
which gives the value returned by the k-th command. In the namespace
resolution it is the `int` value returned by NVME_IOCTL_ID. Opcodes, feature
identifiers, status values and log-page sizes come from NVM Express 1.2,
because `linux/nvme.h` is not part of this model.

Where the code and its intended behaviour part ways, the model states both:
a member that follows the code as written and a corrected one, each listed
under Findings. Most drivers are modelled as written. For example:
- The SMART temperature is computed as an `unsigned int`. A drive below
  273 K is therefore reported near 2^32 degrees, not at a negative
  temperature (`Decode.TemperatureAsWritten`).
- resv-report's raw flag can never be set (`Reservation.RawNeverSet`).
- format on a block device formats the namespace NVME_IOCTL_ID returns, and
  namespace 0xffffffff when that ioctl fails (`Admin.Format`). The
  reservation drivers do the same when no namespace is given
  (`Reservation.LookupErrorBroadcast`).

One driver uses the corrected definition: `Firmware.Download` treats a
transfer size of 0 as 4096. As written, `--xfer=0` resubmits the same
0-byte command until one fails. That run is modelled separately, cut off
after a given number of passes (`Firmware.ZeroXferLoop`).

## Model

| member | source | states |
|---|---|---|
| Command.ResolveNsidAsWritten | nvme.c:882-894 | A given namespace id is used as is. A character device without one is refused (ENOTBLK). Any id it resolves to is non-zero. |
| Command.LookupErrorBecomesBroadcast | nvme.c:889-890 | A failing NVME_IOCTL_ID (-1), stored unsigned, passes `nsid <= 0` and becomes namespace 0xffffffff; the corrected resolution fails instead |
| Command.ResolveNsid | nvme.c:882-894 | The corrected resolution succeeds on a block device exactly when the ioctl returns a positive id, and then resolves to that id |
| Command.ResolveNsidAgrees | nvme.c:889-890 | The written and corrected resolutions agree whenever the ioctl does not return a negative value |
| Command.Settle | nvme.c:1490-1502 | A resolution becomes the namespace to go on with, or the driver's error: ENOTBLK for a character device, the lookup's errno for a failed NVME_IOCTL_ID |
| Command.SettleNsidAsWritten | nvme.c:1490-1502 | As written, the non-zero option is kept; otherwise a character device is ENOTBLK, and a block device uses its NVME_IOCTL_ID answer taken unsigned. Only an answer of 0 fails; the namespace is never 0 |
| Command.SettleNsid | nvme.c:1490-1502 | Corrected: as written, except that the lookup fails on any non-positive answer and otherwise gives that answer |
| Status.ClassifyRoundTrip | nvme.c:312-348 | A masked status has a named case exactly when it is in the table, and that case's value is the status |
| Status.KnownRoundTrip | nvme.c:313-347 | Every listed status value classifies to a named case carrying that value |
| Status.GenericRoundTrip | nvme.c:313-328 | The same for the generic status values (below 0x100) |
| Status.CommandSpecificRoundTrip | nvme.c:329-340 | The same for the command-specific values (0x100 to 0x1ff) |
| Status.MediaRoundTrip | nvme.c:341-347 | The same for the media error values (0x200 and up) |
| Status.UnknownCode | nvme.c:348 | A value outside the table falls to the default case |
| Status.ValueRoundTrip | nvme.c:313-347 | Each named case's value is in the table and classifies back to that case, so no two cases share a value |
| Status.TextUnknown | nvme.c:348 | Only the default case prints "Unknown" |
| Status.StatusName | nvme.c:310-350 | Total: the name is "Unknown" exactly when `status & 0x3ff` has no case of its own; otherwise it is that case's string |
| Status.StatusNameLowBits | nvme.c:312 | Two statuses with the same low ten bits get the same name |
| Status.StatusNameIgnoresHighBits | nvme.c:312 | Bits above bit 9 (More, Do Not Retry) do not change the name: name(s) == name(s & 0x3ff) |
| Status.DoNotRetryInvalidField | nvme.c:312-315 | 0x4002, Invalid Field with Do Not Retry set, is named INVALID_FIELD |
| Features.FeatureNameRoundTrip | nvme.c:290-308 | Each known feature's name leads back to it; the name is "Unknown" exactly for unknown feature ids |
| Features.FeatureNamesDistinct | nvme.c:292-305 | Distinct known features have distinct names |
| Features.FeatureCommand | nvme.c:926-944 | `nvme_feature` puts the feature dword in cdw10, cdw11, nsid, the opcode and the length into a zeroed command and sets nothing else |
| Features.GetFeaturesDword10RoundTrip | nvme.c:1001 | `sel << 8 \| f` keeps f's low byte whatever f is; for f below 256 the dword decodes to FID f and SEL sel |
| Features.GetFeature | nvme.c:986-1003 | EINVAL exactly when sel > 7 or f == 0. Otherwise a Get Features command whose cdw10 decodes to (f, sel); its length is 4096 for LBA Range, otherwise the requested one |
| Features.SetFeature | nvme.c:1319-1332 | EINVAL exactly when no value was given or f == 0. Otherwise cdw10 is f and cdw11 the value; the length rule is as for get-feature |
| Features.SetFeatureAsWritten | nvme.c:1288-1321 | As written, a value whose signed reading is -1 is refused like a missing one; whatever it accepts, it builds as SetFeature does |
| Features.SetFeatureAllOnesRefused | nvme.c:1311-1321 | An explicit value 0xffffffff is refused as written and accepted once corrected |
| Features.SetFeatureAgreesElsewhere | nvme.c:1311-1321 | For every other value, the written and corrected checks give the same result |
| Features.Report | nvme.c:1004-1020 | The value is shown exactly when err == 0, and it is the completion's own result dword; the NVMe status name is shown exactly when err is positive, and a host error exactly when it is negative |
| Features.NumberOfQueuesCommand | nvme.c:1001-1003 | Reading feature 7 with select 0 submits cdw10 == 7 |
| Features.NumberOfQueuesReport | nvme.c:1004-1006 | A completion (0, 0x001f001f) for feature 7 is reported as "Number of Queues" with that value |
| Firmware.NormalizeXfer | nvme.c:1079-1080 | Corrected: the starting transfer size is a positive multiple of 4096. A valid request is kept; 0 and non-multiples become 4096 |
| Firmware.NormalizeXferAsWritten | nvme.c:1079-1080 | As written the result is a multiple of 4096. It agrees with the corrected rule for every non-zero request |
| Firmware.ChunkLen | nvme.c:1083 | The chunk is the smaller of the transfer size and the remaining size, and it is positive when both are |
| Firmware.ChunkCommand | nvme.c:1085-1090 | A Firmware Image Download of `len` bytes. NUMD is len/4 - 1, wrapping to 0xffffffff below one dword; OFST is the dword offset |
| Firmware.Plan | nvme.c:1082-1103 | The plan is empty exactly when there is nothing to send |
| Firmware.PlanCoversImage | nvme.c:1082-1103 | The lengths add up to the image size. Every chunk is non-empty and at most xfer; every chunk but the last is exactly xfer |
| Firmware.PlanStep | nvme.c:1083-1102 | One turn of the loop: the first command, then the plan for the rest with xfer narrowed to that chunk |
| Firmware.PlanHead | nvme.c:1088-1090 | The first command of an aligned plan starts at the given offset and carries a whole, non-zero number of dwords, NUMD + 1 of them |
| Firmware.PlanOffsets | nvme.c:1088-1102 | Each command's OFST, in bytes, is the start offset plus every byte sent before it, and its length is (NUMD + 1) dwords |
| Firmware.OutcomeMeaning | nvme.c:1092-1099 | A run submits a prefix of the plan, and every command before the last one sent succeeded. It completes exactly when every command succeeded; otherwise it reports the last command's return (status or host error) |
| Firmware.Download | nvme.c:1060-1106 | Corrected for xfer 0, as written for every other size. No file, or a size that is not a multiple of 4, is EINVAL with nothing sent. Otherwise the result and the commands sent are exactly the outcome of the plan for the image from offset 0, with the normalised transfer size |
| Firmware.ZeroXferLoop | nvme.c:1060-1103 | As written with xfer 0, over at most `turns` passes. No file or an unaligned size is EINVAL, and an empty image completes with nothing sent. Otherwise every command sent is the 0-byte command at offset 0 (NUMD 0xffffffff), and the run never completes. It stops at the first non-zero return; it is still running after `turns` passes exactly when all of them returned 0 |
| Firmware.XferZeroNeverProgresses | nvme.c:1079-1101 | As written, a transfer size of 0 survives the check, each chunk is 0 bytes long, and the remaining size never shrinks |
| Io.IoControl | nvme.c:1787-1797 | EINVAL exactly when prinfo > 15. Otherwise the control word decodes to the given PRINFO, FUA and LR, with the reserved bits zero |
| Io.ControlRoundTrip | nvme.c:1791-1797 | The three ORs add disjoint fields: the word is 0x400·prinfo + 0x4000·fua + 0x8000·lr, below 2^16, and decodes back |
| Io.SubmitIo | nvme.c:1777-1828 | EINVAL exactly for a bad prinfo or a zero data size. Otherwise the user I/O carries the opcode, control, block count, start LBA and tags; the buffer is data-size bytes, and data goes to the device exactly for odd opcodes |
| Io.OddOpcode | nvme.c:1822 | `opcode & 1` is bit 0 of the opcode |
| Io.DataDirections | nvme.c:1864-1877 | Write and compare send data and read receives it |
| Io.Flush | nvme.c:1441-1445 | A Flush for the given namespace (0xffffffff by default) with every other field zero |
| Io.Passthru | nvme.c:2022-2031 | With data, EINVAL exactly when read and write are both set or both clear, and the direction is the one set. Without data it is never refused. The command goes through exactly as given |
| Io.NoDataIgnoresDirection | nvme.c:2022 | Without data, the direction flags make no difference |
| Admin.Identify | nvme.c:352-363 | A 4096-byte Identify whose CNS is 0 (namespace), 1 (controller) or 2 (namespace list), with the matching nsid and nothing else set |
| Admin.NamespaceListFillsBuffer | nvme.c:739-752 | The namespace-list transfer is exactly the size of `__u32 ns_list[1024]` |
| Admin.LogPageDword10RoundTrip | nvme.c:716 | For lid below 2^16 and 4 ≤ len < 2^18, `lid \| ((len/4 - 1) << 16)` decodes to LID lid and NUMD len/4 - 1 |
| Admin.ShortLogLengthWraps | nvme.c:716 | A length below 4 makes len/4 - 1 wrap, so NUMD asks for 65536 dwords |
| Admin.GetLogCommand | nvme.c:365-376 | `nvme_get_log` builds a Get Log Page with the given length, dword and nsid and nothing else |
| Admin.GetLog | nvme.c:710-716 | EINVAL exactly when the length is 0; otherwise the packed command |
| Admin.GetLogRoundTrip | nvme.c:710-716 | For a valid lid and length, get-log asks for exactly len bytes of log lid, NUMD being len/4 - 1 |
| Admin.SmartLog | nvme.c:581-583 | A Get Log Page command with only the driver's fields set and cdw11 0: smart-log reads all 512 bytes of log 2 (NUMD 127) for the given namespace |
| Admin.FirmwareLog | nvme.c:662-664 | A Get Log Page command with only the driver's fields set and cdw11 0: fw-log reads all 512 bytes of log 3 (NUMD 127) for namespace 0xffffffff |
| Admin.ErrorLog | nvme.c:623-631 | EINVAL exactly when no entries are asked for. Otherwise a Get Log Page command for the given namespace, with only the driver's fields set and cdw11 0. Up to 4096 entries, the transfer is 64 bytes per entry and NUMD is 16·entries - 1 |
| Admin.ErrorLogLength | nvme.c:627-630 | `sizeof(err_log)` passed as unsigned int: 64·entries while that fits |
| Admin.ErrorLogRoundTrip | nvme.c:630 | The error-log dword decodes to LID 1 and 16·entries - 1 |
| Admin.FormatDword10RoundTrip | nvme.c:1269 | For in-range fields the five shifted fields do not overlap: the dword is below 0x1000 and decodes to LBAF, MS, PI, PIL, SES |
| Admin.FormatNsidAsWritten | nvme.c:1256-1264 | On a character device the option's namespace is kept. On a block device the NVME_IOCTL_ID answer replaces it. Only an answer of 0 fails; a negative answer becomes that value plus 2^32 |
| Admin.FormatNsid | nvme.c:1256-1264 | Corrected: on a block device the lookup succeeds exactly when the answer is positive, and then gives that answer |
| Admin.FormatNsidAgrees | nvme.c:1256-1264 | The written and corrected lookups agree whenever the answer is not negative |
| Admin.FormatFor | nvme.c:1236-1269 | The field checks come first (EINVAL exactly when one fails), then a failed lookup returns its errno. Otherwise a Format NVM for the resolved namespace whose cdw10 decodes to the given fields |
| Admin.Format | nvme.c:1236-1269 | As written. EINVAL exactly when ms > 1, pil > 1, ses > 7, lbaf > 15 or pi > 7. Otherwise errno exactly on a block device whose NVME_IOCTL_ID returns 0. Otherwise a Format NVM whose cdw10 decodes to the given fields, for the device's namespace id taken unsigned on a block device and for the option's id elsewhere |
| Admin.FormatCorrected | nvme.c:1236-1269 | As Format, except that errno comes exactly when the block device's NVME_IOCTL_ID answer is not positive |
| Admin.FormatOverridesGivenNsid | nvme.c:1256-1257 | On a block device `--namespace-id=5` is ignored: the device's own namespace 7 is formatted, as written and corrected |
| Admin.FormatLookupErrorFormatsAll | nvme.c:1257-1258 | A failing lookup (-1) formats namespace 0xffffffff as written; the corrected format refuses |
| Admin.FwActivate | nvme.c:1119-1145 | EINVAL exactly when slot > 7 or action > 3. Otherwise a Firmware Activate whose cdw10 decodes to FS slot and AA action |
| Admin.FwActivateRoundTrip | nvme.c:1145 | `(action << 3) \| slot` is 8·action + slot and decodes back |
| Admin.SecurityDword10RoundTrip | nvme.c:1407 | `secp << 24 \| spsp << 8` decodes to SECP secp and SPSP spsp, with the low byte zero |
| Admin.SecuritySend | nvme.c:1390-1410 | EINVAL exactly when no payload file was given. Otherwise Security Send: protocol fields in cdw10, transfer length in cdw11, the payload size as length |
| Admin.SecurityRecv | nvme.c:1930-1935 | Security Receive: protocol fields in cdw10, allocation length in cdw11, the size as length |
| Admin.SecurityDword10FromOptionsAsWritten | nvme.c:1375-1380 | As written, the `--secp` argument lands in SPSP and the `--spsp` argument in SECP |
| Admin.SecurityProtocolMisplaced | nvme.c:1375-1380 | `--secp=0xef` goes out with protocol 0 and 0xef as the protocol-specific value |
| Admin.SecurityDword10FromOptions | nvme.c:1407 | Corrected: the protocol argument is the SECP field and the specific argument the SPSP field |
| Reservation.TypedDword10RoundTrip | nvme.c:1516 | For iekey ≤ 1 and action ≤ 7, `rtype << 8 \| iekey << 3 \| action` is a sum of disjoint fields and decodes back, with the reserved bits zero |
| Reservation.Acquire | nvme.c:1505-1519 | EINVAL exactly when racqa > 7. Otherwise an Acquire whose cdw10 decodes to (racqa, iekey, rtype) and whose 16-byte payload is the current and preempt keys |
| Reservation.Release | nvme.c:1653-1668 | EINVAL exactly when iekey > 1 or rrela > 7. Otherwise a Release whose cdw10 decodes to (rrela, iekey, rtype) and whose 8-byte payload is the current key |
| Reservation.RegisterDword10RoundTrip | nvme.c:1593 | For in-range fields, `cptpl << 30 \| iekey << 3 \| rrega` decodes to RREGA, IEKEY and CPTPL with the reserved bits zero |
| Reservation.RegisterAsWritten | nvme.c:1578-1596 | As written, EINVAL exactly when iekey > 1 or cptpl > 3; the register action is not checked. Otherwise a Reservation Register for nsid with only the driver's fields set, cdw11 0, the payload [crkey, nrkey] and 16 bytes of data; cdw10 is `cptpl << 30 \| iekey << 3 \| rrega` |
| Reservation.RegisterActionSpills | nvme.c:1593 | As written, rrega 8 to 15 without iekey submits IEKEY = 1 and action rrega - 8 |
| Reservation.Register | nvme.c:1578-1596 | Corrected: EINVAL exactly when iekey > 1, cptpl > 3 or rrega > 7. Otherwise every field decodes back, the payload is the current and new keys, and the command is the one the written code builds |
| Reservation.ClampNumd | nvme.c:1720-1721 | The dword count is between 1 and 1024. A count already in range is kept; 0 or over 1024 becomes 1024 |
| Reservation.ClampIdempotent | nvme.c:1720-1721 | Clamping twice is clamping once |
| Reservation.Report | nvme.c:1720-1734 | A Reservation Report whose cdw10 is the clamped count and whose length is four bytes per dword, between 4 and 4096 bytes |
| Reservation.AcquireDriver | nvme.c:1490-1519 | resv-acquire as a whole. ENOTBLK exactly for a character device without a namespace option; errno exactly when the lookup answers 0; otherwise EINVAL exactly when racqa > 7. Every command it builds is Acquire's for the settled namespace |
| Reservation.RegisterDriver | nvme.c:1563-1596 | resv-register as a whole: the same lookup errors first, then EINVAL exactly when iekey > 1 or cptpl > 3. Every command it builds is RegisterAsWritten's for the settled namespace |
| Reservation.ReleaseDriver | nvme.c:1638-1668 | resv-release as a whole: the same lookup errors first, then EINVAL exactly when iekey > 1 or rrela > 7. Every command it builds is Release's for the settled namespace |
| Reservation.ReportDriver | nvme.c:1705-1734 | resv-report as a whole: only the lookup can fail. Otherwise the command is Report's for the settled namespace |
| Reservation.LookupPrecedesChecks | nvme.c:1490-1508 | On a character device without `--namespace-id`, `--racqa=9` gives ENOTBLK; with a namespace it gives EINVAL |
| Reservation.LookupErrorBroadcast | nvme.c:1497-1498 | A failing lookup (-1) sends Acquire, Register, Release and Report to namespace 0xffffffff; the corrected lookup fails instead |
| Reservation.DefaultNumdAsWritten | nvme.c:1684 | The default `0x1000 > 2` is a comparison, worth 1 |
| Reservation.DefaultNumd | nvme.c:1720-1721 | The intended default is 0x1000 >> 2 = 1024 |
| Reservation.DefaultReportTooShort | nvme.c:1684-1734 | Without `--numd`, the written default transfers 4 bytes, fewer than the 24-byte status header the report prints; the intended default transfers the whole page |
| Reservation.ReportStep | nvme.c:1693-1701 | One option: `--raw-binary` and unknown options are EINVAL, `-r` clears raw, and nothing sets it |
| Reservation.ParseReportOptions | nvme.c:1693-1702 | The option loop's result is the fold of its steps over the options, and raw is never set in it |
| Reservation.ErrorSticks | nvme.c:1700 | Once an option is refused, the loop's result is that refusal |
| Reservation.RawNeverSet | nvme.c:1698 | No sequence of options turns on the raw dump |
| Reservation.NumdDefaultKept | nvme.c:1684-1697 | Options that never give `--numd` leave the count at 1 |
| Reservation.ReportStepIntended | nvme.c:1693-1701 | Corrected switch: only unknown options are EINVAL, and the result asks for the raw dump exactly when it was asked before or the option is `-r` or `--raw-binary`; every other option acts as written |
| Reservation.RawOptionIgnored | nvme.c:1698 | `-r` clears the raw flag as written and sets it once corrected |
| Decode.HornerIsSum | nvme.c:244-254 | Reading from the most significant byte down, multiplying by 256, gives Σ s[i]·256^i |
| Decode.LeBytes | nvme.c:244-254 | The k little-endian bytes of a value |
| Decode.LeBytesRoundTrip | nvme.c:244-254 | Encoding a value that fits in k bytes and decoding it gives it back |
| Decode.Int128ToNumber | nvme.c:244-254 | The loop over the 16 counter bytes computes exactly Σ data[i]·256^i, below 2^128 |
| Decode.ZeroCounter | nvme.c:244-254 | Sixteen zero bytes count 0 |
| Decode.Byte8Counter | nvme.c:244-254 | A single 1 in byte 8 counts 2^64, one more than the largest 64-bit value |
| Decode.Le16 | nvme.c:259-260 | `(b[1] << 8) \| b[0]` is the little-endian value of the two bytes |
| Decode.Regctl | nvme.c:202 | The registered-controller count is regctl[0] + 256·regctl[1] |
| Decode.RegctlRoundTrip | nvme.c:202 | Every 16-bit count comes from exactly its own byte pair |
| Decode.TemperatureAsWritten | nvme.c:259-260 | As written, the Kelvin value minus 273 wraps modulo 2^32 below 273 K |
| Decode.ColdDriveWraps | nvme.c:259-264 | 268 K (bytes 0x0c 0x01) is reported as 4294967291 °C |
| Decode.Temperature | nvme.c:258-260 | Corrected: the Celsius temperature plus 273 is the two-byte Kelvin value, negative values included |
| Decode.TemperatureAgrees | nvme.c:259-260 | At or above 273 K the written and corrected temperatures agree |
| Decode.Printable | nvme.c:227 | Bytes '!' to '~' are shown as themselves, every other byte as '.' |
| Decode.PrintableString | nvme.c:226-227 | Position by position, the printable image of a byte sequence |
| Decode.GraphicBytesKept | nvme.c:227 | Graphic bytes come through unchanged: their character codes are the bytes |
| Decode.FwToString | nvme.c:220-229 | `ret[0..8)` is the printable image of the revision's eight bytes in memory (little-endian) order |
| Decode.FwStringRoundTrip | nvme.c:220-229 | A revision made of graphic characters is shown verbatim: the codes of the text read back as the revision |
| Decode.CString | nvme.c:404 | `%.*s` prints a prefix of at most max characters with no NUL in it, stopping only at a NUL or at max |
| Decode.CStringWhole | nvme.c:404 | Without a NUL in the first max characters, exactly max are printed |
| Decode.CStringUpTo | nvme.c:411-414 | A NUL at k < max ends the printed text at k |
| Decode.FullLines | nvme.c:399-407 | One text line per complete 16 bytes |
| Decode.FullLinesStep | nvme.c:402-407 | Completing a line adds that line's printable image |
| Decode.FullLinesAppend | nvme.c:393-407 | One more byte adds a line exactly when it completes one |
| Decode.TailBytes | nvme.c:409-414 | The bytes of the last, partial line are the final len % 16 bytes |
| Decode.DumpLines | nvme.c:393-408 | The loop prints exactly the full lines and `line_done` is set exactly when no partial line remains. Afterwards `ascii` holds the partial line's characters followed by the stale one |
| Decode.PrintLine | nvme.c:402-405 | At a line's end the NUL goes to ascii[16], and the sixteen characters printed are the array's |
| Decode.DumpByte | nvme.c:393-407 | One turn of the loop keeps the array image and the printed lines in step with the bytes seen |
| Decode.StoreChar | nvme.c:401 | Storing byte i's character gives the next image; at a line's end the array is that line's printable image |
| Decode.AsciiStep | nvme.c:401 | The array image after byte i is the one before it with slot i % 16 set to the byte's character |
| Decode.ImageWithinLine | nvme.c:401 | Within a line, storing a byte appends its character to the line's image |
| Decode.ImageLineEnds | nvme.c:401-403 | The byte that completes a line leaves the array equal to that line's printable image |
| Decode.AsciiFinal | nvme.c:409-411 | After the loop the array holds the partial line and then the stale character |
| Decode.DumpTextColumnAsWritten | nvme.c:385-417 | As written, the text column of `d()` is the full lines followed by the partial line and the stale character at ascii[len % 16] |
| Decode.TrailerAsWritten | nvme.c:409-414 | With the NUL at k + 1, the trailer prints the partial line plus the stale character, unless that character is a NUL |
| Decode.DumpTextColumn | nvme.c:385-417 | Corrected: with the NUL at ascii[len % 16], each printed line shows exactly its own bytes |
| Decode.StaleCharacterShown | nvme.c:409-414 | For the 20 bytes "A".."T", the second line is "QRSTE" as written and "QRST" corrected |
| Decode.DumpTextCoversBuffer | nvme.c:385-417 | Concatenated, the corrected text column is the printable image of the whole buffer |
| Decode.TailSplits | nvme.c:409-411 | The full lines' bytes followed by the tail are the buffer |
| Decode.FullLinesOfWholeLines | nvme.c:409-411 | The partial line adds no complete line |
| Decode.ConcatSnoc | nvme.c:404 | Printing one more line appends its text |
| Decode.PrintableConcat | nvme.c:401 | The printable image of a concatenation is the concatenation of the images |
| Decode.FullLinesCover | nvme.c:399-407 | The first m complete lines, concatenated, are the image of the first 16·m bytes |
| Decode.DumpRaw | nvme.c:378-383 | `d_raw` emits exactly buf[0..len), in order |

## Left out

- The ioctls themselves (NVME_IOCTL_ADMIN_CMD, NVME_IOCTL_IO_CMD, NVME_IOCTL_SUBMIT_IO, NVME_IOCTL_ID, BLKRRPART) are kernel calls. Their return values are parameters.
- Option parsing (`getopt_long`, `get_int` and related, the command table, help, man pages) is not modelled. Each encoder takes the values already parsed, and each option is taken once. A repeated `-p` to read/write, which ORs into the control word again, is not modelled. The one exception is resv-report's option switch, modelled because its `-r` case clears the flag it should set.
- Firmware.Download: a transfer size of 0 is treated as 4096, the corrected behaviour. As written the loop resubmits a 0-byte command at offset 0 (NUMD 0xffffffff) until the ioctl returns non-zero, and no measure decreases. That run is stated separately by `Firmware.ZeroXferLoop`, cut off after a given number of passes.
- Admin.Format: the errno returned when NVME_IOCTL_ID answers 0 is a single value, `IoctlErrno`; which errno the kernel left is not modelled.
- security-send's `fstat` failure, which returns its errno, is not modelled.
- Firmware.Download: the `fstat` failure on the image file, which calls `exit(errno)`, is not modelled.
- A character device without a namespace option makes the program `exit(ENOTBLK)`. The model returns `Err(ENOTBLK)` instead.
- fw-download's `--offset` option reaches the `default` case and is EINVAL, so the offset always starts at 0. `Firmware.Download` has no offset parameter.
- fw-download never reads the firmware file into `fw_buf`, and security-send never reads its payload file. Buffer contents are not modelled; only lengths and addresses-by-position are.
- The truncation of `st_size` to `unsigned int`, and ENOMEM from `posix_memalign` and `malloc`, are left out: the image size is given as a 32-bit value.
- get-feature and set-feature read `f` uninitialised when `--feature-id` is missing. The model takes a missing id as 0.
- The reservation commands and flush return 0 even after an NVMe error; exit statuses are not modelled.
- `--show-command`, `--dry-run`, metadata buffers and the data file of read/write/compare and the passthrough commands are not modelled.
- security-recv's raw dump passes `&sec_buf` where it means `sec_buf`. That dump is not modelled.
- fw_to_string reads the revision's bytes in memory order; a little-endian host is assumed.
- Decode.Int128ToNumber: the value is exact over naturals; the `long double` rounding above 2^64 is not modelled.
- Only the text column of `d()` is modelled. The offsets, the hex columns and the padding arithmetic of the last line are presentation only.
- The printing in the show_* functions (error log entries, firmware slots, SMART fields, the registrant loop of the reservation report) is not modelled; the values they decode are.
- show-regs, list, id-ctrl's vendor flag, get-ns-id output and the other sub-commands outside the encoders are not part of this model.
- `linux/nvme.h` is not part of this model. The opcode, feature, status and log-size constants come from NVM Express 1.2.

## Findings

| source | as written | input that shows it | evidently intended | confidence | as-written member | corrected member |
|---|---|---|---|---|---|---|
| nvme.c:1079-1083 | only `xfer_size % 4096` is checked, so 0 passes; each chunk is then 0 bytes and `fw_size` never shrinks | `fw-download --xfer=0` with a non-empty image | a transfer size of 0 falls back to 4096 like other invalid sizes | not executed | Firmware.ZeroXferLoop | Firmware.NormalizeXfer |
| nvme.c:1288-1321 | "value given" is `val = (int)v` compared with -1 | `set-feature -f 1 -v 0xffffffff` is refused as "value required" | any given value is accepted | not executed | Features.SetFeatureAllOnesRefused | Features.SetFeature |
| nvme.c:1684 | `numd = 0x1000 > 2` is a comparison, worth 1 | `resv-report -n 1` transfers 4 bytes and prints a 24-byte header | `0x1000 >> 2`, one page | not executed | Reservation.DefaultReportTooShort | Reservation.DefaultNumd |
| nvme.c:259-260 | the temperature is `unsigned int` Kelvin minus 273 | bytes 0x0c 0x01 (268 K) print 4294967291 C | -5 C | not executed | Decode.ColdDriveWraps | Decode.Temperature |
| nvme.c:1256-1262 | format stores the `int` return of NVME_IOCTL_ID in an unsigned int, so `nsid <= 0` misses -1 | `format` on a block device whose lookup fails (-1) formats namespace 0xffffffff, every namespace | a failing lookup is reported as an error | not executed | Admin.FormatLookupErrorFormatsAll | Admin.FormatCorrected |
| nvme.c:1497-1498 | resv-acquire stores the `int` return of NVME_IOCTL_ID in an unsigned int, so `nsid <= 0` misses -1; resv-register (1570), resv-release (1645) and resv-report (1712) do the same | a reservation command on a block device whose lookup fails (-1) goes to namespace 0xffffffff | a failing lookup is reported as an error | not executed | Reservation.LookupErrorBroadcast | Command.SettleNsid |
| nvme.c:889-890 | the `int` return of NVME_IOCTL_ID goes into an unsigned int, so `nsid <= 0` misses -1 | a failing lookup (-1) gives namespace 0xffffffff | a failing lookup is reported as an error | not executed | Command.LookupErrorBecomesBroadcast | Command.ResolveNsid |
| nvme.c:1578-1593 | the register action is not range-checked before `\| rrega` | `resv-register --rrega=9` sets IEKEY and action 1 | rrega above 7 is EINVAL, as racqa and rrela are | not executed | Reservation.RegisterActionSpills | Reservation.Register |
| nvme.c:1375-1380 | `-p/--secp` is parsed into `spsp` and `-s/--spsp` into `secp` | `security-send --secp=0xef` sends protocol 0 | each option fills its own field | not executed | Admin.SecurityProtocolMisplaced | Admin.SecurityDword10FromOptions |
| nvme.c:409-411 | the trailing NUL goes to `ascii[i % width + 1]` | a 20-byte buffer "A".."T": second line "QRSTE" | the NUL at `ascii[i % width]` | not executed | Decode.StaleCharacterShown | Decode.DumpTextColumn |
| nvme.c:1698 | `case 'r': raw = 0`, and `--raw-binary` has no case | `resv-report -r` still prints the decoded report | `-r` and `--raw-binary` set raw to 1 | not executed | Reservation.RawOptionIgnored | Reservation.ReportStepIntended |

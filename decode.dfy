/**
 * The small decoders nvme.c applies to what the device returns: the 128-bit
 * little-endian SMART counters, the two-byte temperature and the
 * reservation-status registrant count, the printable-character mapping of
 * firmware revisions and of the hex dump's text column, and the raw
 * byte-for-byte dump.
 */
module Decode {
  import opened Bits

  // --------------------------------------------------- Little-endian values

  /** The value of little-endian bytes as a sum: Σ s[i] * 256^i. */
  function LeSum(s: seq<u8>): (r: nat)
  {
    if |s| == 0 then 0 else LeSum(s[..|s| - 1]) + s[|s| - 1] * Pow256(|s| - 1)
  }

  function Pow256(k: nat): (r: nat)
    ensures r >= 1
  {
    if k == 0 then 1 else 256 * Pow256(k - 1)
  }

  /** The same value read from the most significant byte down: each step multiplies by 256. */
  function Horner(s: seq<u8>): (r: nat)
    ensures r < Pow256(|s|)
  {
    if |s| == 0 then 0 else s[0] + 256 * Horner(s[1..])
  }

  /** Reading from the top byte down gives the positional sum. */
  lemma {:induction false} HornerIsSum(s: seq<u8>)
    ensures Horner(s) == LeSum(s)
    decreases |s|
  {
    if |s| > 1 {
      var n := |s| - 1;
      var mid := s[1..n];
      var midSum := LeSum(mid);
      assert Horner(s) == s[0] + 256 * (midSum + s[n] * Pow256(n - 1)) by {
        HornerIsSum(s[1..]);
        assert s[1..][..n - 1] == mid;
      }
      assert LeSum(s[..n]) == s[0] + 256 * midSum by {
        HornerIsSum(s[..n]);
        assert s[..n][1..] == mid;
        HornerIsSum(mid);
      }
      assert s[..n] == s[..|s| - 1];
      assert Pow256(n) == 256 * Pow256(n - 1);
    } else if |s| == 1 {
      assert s[..0] == [] && s[1..] == [];
    }
  }

  /** The little-endian bytes of `n`, `k` of them. */
  function LeBytes(n: nat, k: nat): (r: seq<u8>)
    ensures |r| == k
  {
    if k == 0 then [] else [(n % 256) as u8] + LeBytes(n / 256, k - 1)
  }

  /** Encoding a value that fits in `k` bytes and decoding it gives it back. */
  lemma {:induction false} LeBytesRoundTrip(n: nat, k: nat)
    requires n < Pow256(k)
    ensures Horner(LeBytes(n, k)) == n
    ensures LeSum(LeBytes(n, k)) == n
  {
    if k > 0 {
      assert n / 256 < Pow256(k - 1);
      LeBytesRoundTrip(n / 256, k - 1);
      assert LeBytes(n, k)[1..] == LeBytes(n / 256, k - 1);
    }
    HornerIsSum(LeBytes(n, k));
  }

  /**
   * int128_to_double: the loop over the 16 bytes of a SMART counter, most
   * significant first, multiplying the running value by 256 and adding the
   * next byte. The value is exact here; the C code accumulates it in a
   * `long double`.
   */
  method Int128ToNumber(data: seq<u8>) returns (result: nat)
    requires |data| == 16
    ensures result == LeSum(data)
    ensures result < Pow256(16)
  {
    result := 0;
    var i := 0;
    while i < 16
      invariant 0 <= i <= 16
      invariant result == Horner(data[16 - i..])
    {
      assert data[16 - (i + 1)..][1..] == data[16 - i..];
      result := result * 256;
      result := result + data[15 - i];
      i := i + 1;
    }
    assert data[0..] == data;
    HornerIsSum(data);
  }

  /** Sixteen zero bytes count nothing. */
  lemma ZeroCounter()
    ensures LeSum(seq(16, _ => 0)) == 0
  {
    var z: seq<u8> := seq(16, _ => 0);
    assert forall k :: 0 <= k <= 16 ==> LeSum(z[..k]) == 0 by {
      forall k | 0 <= k <= 16
        ensures LeSum(z[..k]) == 0
      {
        ZeroPrefix(z, k);
      }
    }
    assert z[..16] == z;
  }

  lemma {:induction false} ZeroPrefix(z: seq<u8>, k: nat)
    requires k <= |z| && forall i :: 0 <= i < |z| ==> z[i] == 0
    ensures LeSum(z[..k]) == 0
  {
    if k > 0 {
      ZeroPrefix(z, k - 1);
      assert z[..k][..k - 1] == z[..k - 1];
    }
  }

  /** A single 1 in byte 8 is 2^64, one more than the largest 64-bit value. */
  lemma Byte8Counter()
    ensures LeSum(seq(16, i => if i == 8 then 1 else 0)) == 0x1_0000_0000_0000_0000
  {
    var s: seq<u8> := seq(16, i => if i == 8 then 1 else 0);
    assert Horner(s[8..]) == 1 by {
      var t := s[8..];
      assert t == [1, 0, 0, 0, 0, 0, 0, 0];
      assert Horner(t[1..]) == 0 by {
        ZeroHorner(t[1..]);
      }
    }
    assert Horner(s) == Pow256(8) * Horner(s[8..]) by {
      ZeroLowBytes(s, 8);
    }
    HornerIsSum(s);
    assert Pow256(8) == 0x1_0000_0000_0000_0000;
  }

  lemma {:induction false} ZeroHorner(s: seq<u8>)
    requires forall i :: 0 <= i < |s| ==> s[i] == 0
    ensures Horner(s) == 0
  {
    if |s| > 0 {
      ZeroHorner(s[1..]);
    }
  }

  /** Low bytes that are all zero shift the rest up by whole bytes. */
  lemma {:induction false} ZeroLowBytes(s: seq<u8>, k: nat)
    requires k <= |s| && forall i :: 0 <= i < k ==> s[i] == 0
    ensures Horner(s) == Pow256(k) * Horner(s[k..])
  {
    if k > 0 {
      var t := s[1..];
      assert Horner(t) == Pow256(k - 1) * Horner(t[k - 1..]) by {
        ZeroLowBytes(t, k - 1);
      }
      assert t[k - 1..] == s[k..];
      var h, p := Horner(s[k..]), Pow256(k - 1);
      assert Horner(s) == 256 * (p * h) by {
        assert s[0] == 0;
      }
      assert 256 * (p * h) == (256 * p) * h;
    }
  }

  /**
   * `(b[1] << 8) | b[0]`, in int: a little-endian 16-bit field (the SMART
   * temperature, the reservation status's registered-controller count).
   */
  function Le16(lo: u8, hi: u8): (r: u16)
    ensures r == lo + 256 * hi
    ensures r == LeSum([lo, hi])
  {
    PowersOfTwo();
    ShlAt(hi, 8, 0x100);
    OrAt(hi, lo, 8, 0x100);
    assert LeSum([lo, hi]) == LeSum([lo]) + hi * 256 by {
      assert [lo, hi][..1] == [lo];
    }
    assert LeSum([lo]) == lo by {
      assert [lo][..0] == [];
    }
    Or32(Shl(hi, 8), lo)
  }

  /** show_nvme_resv_report's `regctl`: the number of registered controllers it goes on to print. */
  function Regctl(regctl0: u8, regctl1: u8): (r: u16)
    ensures r == regctl0 + 256 * regctl1
  {
    Le16(regctl0, regctl1)
  }

  /** Every 16-bit count is reached by exactly one byte pair. */
  lemma RegctlRoundTrip(n: u16)
    ensures Regctl((n % 256) as u8, (n / 256) as u8) == n
  {
  }

  // ------------------------------------------------------------ Temperature

  /**
   * The SMART temperature as written: Kelvin minus 273 in `unsigned int`, so
   * anything below 273 K wraps to a value near 2^32.
   */
  function TemperatureAsWritten(lo: u8, hi: u8): (r: u32)
    ensures Le16(lo, hi) >= 273 ==> r == Le16(lo, hi) - 273
    ensures Le16(lo, hi) < 273 ==> r == Le16(lo, hi) - 273 + U32_LIMIT
  {
    Sub32(Le16(lo, hi), 273)
  }

  /** 268 K (-5 C), bytes 0x0c 0x01, is reported as 4294967291 C. */
  lemma ColdDriveWraps()
    ensures Le16(0x0c, 0x01) == 268
    ensures TemperatureAsWritten(0x0c, 0x01) == 4294967291
  {
  }

  /** The temperature in degrees Celsius, below zero included. */
  function Temperature(lo: u8, hi: u8): (r: int)
    ensures r + 273 == LeSum([lo, hi])
    ensures -273 <= r < 0x1_0000 - 273
  {
    Le16(lo, hi) - 273
  }

  /** At and above 273 K the two agree. */
  lemma TemperatureAgrees(lo: u8, hi: u8)
    requires Le16(lo, hi) >= 273
    ensures TemperatureAsWritten(lo, hi) == Temperature(lo, hi)
  {
  }

  // ------------------------------------------------- Printable characters

  /** `c >= '!' && c <= '~' ? c : '.'`: graphic ASCII is shown, everything else as a dot. */
  function Printable(b: u8): (r: char)
    ensures '!' <= r <= '~'
    ensures 0x21 <= b <= 0x7e ==> r as int == b
    ensures !(0x21 <= b <= 0x7e) ==> r == '.'
  {
    if 0x21 <= b <= 0x7e then b as char else '.'
  }

  function PrintableString(b: seq<u8>): (r: string)
    ensures |r| == |b|
    ensures forall i :: 0 <= i < |b| ==> r[i] == Printable(b[i])
  {
    if |b| == 0 then [] else [Printable(b[0])] + PrintableString(b[1..])
  }

  predicate AllGraphic(b: seq<u8>)
  {
    forall i :: 0 <= i < |b| ==> 0x21 <= b[i] <= 0x7e
  }

  /** The character codes of a string. */
  function Codes(s: string): (r: seq<u8>)
    requires forall i :: 0 <= i < |s| ==> s[i] as int < 0x100
    ensures |r| == |s|
    ensures forall i :: 0 <= i < |s| ==> r[i] == s[i] as int
  {
    if |s| == 0 then [] else [s[0] as int as u8] + Codes(s[1..])
  }

  /** Graphic bytes come through unchanged: their codes are the bytes. */
  lemma GraphicBytesKept(b: seq<u8>)
    requires AllGraphic(b)
    ensures Codes(PrintableString(b)) == b
  {
  }

  /**
   * fw_to_string: the eight bytes of a firmware revision, in memory order
   * (little-endian), each mapped to a printable character, into the static
   * `ret[9]`; the ninth character is the terminating NUL.
   */
  method FwToString(fw: u64) returns (s: string)
    ensures s == PrintableString(LeBytes(fw, 8))
  {
    var c := LeBytes(fw, 8);
    var ret := new char[9];
    var i := 0;
    while i < 8
      invariant 0 <= i <= 8
      invariant ret[..i] == PrintableString(c[..i])
    {
      ret[i] := Printable(c[i]);
      assert ret[..i + 1] == ret[..i] + [ret[i]];
      i := i + 1;
    }
    ret[i] := '\0';
    assert ret[..8] == PrintableString(c[..8]);
    assert c[..8] == c;
    s := ret[..8];
  }

  /** A revision made of graphic characters is shown verbatim: its codes read back as `fw`. */
  lemma FwStringRoundTrip(fw: u64)
    requires AllGraphic(LeBytes(fw, 8))
    ensures LeSum(Codes(PrintableString(LeBytes(fw, 8)))) == fw
  {
    GraphicBytesKept(LeBytes(fw, 8));
    assert Pow256(8) == 0x1_0000_0000_0000_0000;
    LeBytesRoundTrip(fw, 8);
  }

  // ------------------------------------------------- Hex dump text column

  /**
   * Every hex dump in nvme.c is `d(buf, len, 16, 1)`: sixteen bytes a line,
   * each line followed by its bytes as printable characters, collected in
   * the stack array `ascii[17]` and printed with `%.*s` (at most 16
   * characters, up to the first NUL).
   */
  const DUMP_WIDTH: nat := 16

  /** What `printf("%.*s", max, s)` prints of the characters in `s`. */
  function CString(s: seq<char>, max: nat): (r: string)
    ensures |r| <= max && |r| <= |s| && r == s[..|r|]
    ensures '\0' !in r
    ensures |r| < max && |r| < |s| ==> s[|r|] == '\0'
  {
    if max == 0 || |s| == 0 || s[0] == '\0' then [] else [s[0]] + CString(s[1..], max - 1)
  }

  /** Without a NUL among the first `max` characters, exactly `max` are printed. */
  lemma {:induction false} CStringWhole(s: seq<char>, max: nat)
    requires max <= |s| && '\0' !in s[..max]
    ensures CString(s, max) == s[..max]
  {
    if max > 0 {
      assert s[0] == s[..max][0];
      assert s[1..][..max - 1] == s[1..max] && s[..max] == [s[0]] + s[1..max];
      CStringWhole(s[1..], max - 1);
    }
  }

  /** The text of the complete lines of a dump of `buf`. */
  function FullLines(buf: seq<u8>): (r: seq<string>)
    ensures |r| == |buf| / DUMP_WIDTH
  {
    seq(|buf| / 16, j requires 0 <= j < |buf| / 16 => PrintableString(buf[16 * j..16 * j + 16]))
  }

  /** Completing a line adds one line to the dump's text. */
  lemma FullLinesStep(buf: seq<u8>, i: nat)
    requires i + 16 <= |buf| && i % 16 == 0
    ensures FullLines(buf[..i + 16]) == FullLines(buf[..i]) + [PrintableString(buf[i..i + 16])]
  {
    var a, b := FullLines(buf[..i + 16]), FullLines(buf[..i]) + [PrintableString(buf[i..i + 16])];
    assert |a| == |b|;
    forall j | 0 <= j < |a|
      ensures a[j] == b[j]
    {
      if j < |a| - 1 {
        assert buf[..i + 16][16 * j..16 * j + 16] == buf[16 * j..16 * j + 16] == buf[..i][16 * j..16 * j + 16];
      } else {
        assert buf[..i + 16][16 * j..16 * j + 16] == buf[i..i + 16];
      }
    }
  }

  /** One more byte adds a line to the dump's text exactly when it completes one. */
  lemma FullLinesAppend(buf: seq<u8>, i: nat)
    requires i < |buf|
    ensures (i + 1) % 16 != 0 ==> FullLines(buf[..i + 1]) == FullLines(buf[..i])
    ensures (i + 1) % 16 == 0 ==>
              i >= 15 && FullLines(buf[..i + 1]) == FullLines(buf[..i]) + [PrintableString(buf[i - 15..i + 1])]
  {
    var a, b := FullLines(buf[..i + 1]), FullLines(buf[..i]);
    forall j | 0 <= j < |a| && j < |b|
      ensures a[j] == b[j]
    {
      assert buf[..i + 1][16 * j..16 * j + 16] == buf[16 * j..16 * j + 16] == buf[..i][16 * j..16 * j + 16];
    }
    if (i + 1) % 16 == 0 {
      assert |a| == |b| + 1;
      assert buf[..i + 1][16 * |b|..16 * |b| + 16] == buf[i - 15..i + 1];
    } else {
      assert |a| == |b|;
    }
  }

  /** `!line_done` after the loop: the buffer is empty or ends in a partial line. */
  predicate HasTrailer(len: nat)
  {
    len == 0 || len % 16 != 0
  }

  /** The bytes of the last, partial line. */
  function TailBytes(buf: seq<u8>): (r: seq<u8>)
    ensures |r| == |buf| % DUMP_WIDTH && r == buf[|buf| - |r|..]
  {
    buf[|buf| - |buf| % 16..]
  }

  /**
   * The character `ascii[len % 16]` still holds when the loop ends: the
   * byte 16 places back if there was an earlier line, otherwise whatever the
   * uninitialised array started with (`init`).
   */
  function Stale(buf: seq<u8>, init: seq<char>): char
    requires |init| == DUMP_WIDTH + 1
  {
    if |buf| >= 16 then Printable(buf[|buf| - 16]) else init[|buf| % 16]
  }

  /**
   * The dump's text column as written: the trailing line's NUL goes to
   * `ascii[len % 16 + 1]`, so the stale character before it is printed too.
   */
  function DumpTextAsWritten(buf: seq<u8>, init: seq<char>): (r: seq<string>)
    requires |init| == DUMP_WIDTH + 1
  {
    var stale := Stale(buf, init);
    FullLines(buf) +
    if HasTrailer(|buf|) then [PrintableString(TailBytes(buf)) + (if stale == '\0' then [] else [stale])]
    else []
  }

  /** The text column with the NUL at `ascii[len % 16]`: each line shows its own bytes. */
  function DumpText(buf: seq<u8>): (r: seq<string>)
  {
    FullLines(buf) + if HasTrailer(|buf|) then [PrintableString(TailBytes(buf))] else []
  }

  /**
   * The loop of `d()` as far as the text column goes: `ascii[i % 16]`
   * receives each byte's character and a full line prints the array.
   * Afterwards `ascii` holds the partial line's characters, then the stale
   * one; `lineDone` is `line_done`.
   */
  method DumpLines(buf: seq<u8>, ascii: array<char>) returns (lines: seq<string>, lineDone: bool)
    requires ascii.Length == DUMP_WIDTH + 1
    modifies ascii
    ensures lines == FullLines(buf)
    ensures lineDone <==> !HasTrailer(|buf|)
    ensures ascii[..|buf| % 16] == PrintableString(TailBytes(buf))
    ensures ascii[|buf| % 16] == Stale(buf, old(ascii[..]))
  {
    ghost var init := ascii[..];
    lines, lineDone := [], false;
    var i := 0;
    while i < |buf|
      invariant 0 <= i <= |buf|
      invariant lines == FullLines(buf[..i])
      invariant lineDone <==> i > 0 && i % 16 == 0
      invariant ascii[..16] == AsciiImage(buf, i, init)
    {
      lines, lineDone := DumpByte(buf, i, ascii, init, lines);
      i := i + 1;
    }
    AsciiFinal(buf, init);
    assert buf[..|buf|] == buf;
    assert ascii[..16][..|buf| % 16] == ascii[..|buf| % 16];
  }

  /**
   * A full line: `ascii[i % 16 + 1]`, which is `ascii[16]` at the end of a
   * line, is set to NUL and the array printed; the NUL is never reached, so
   * all sixteen characters print.
   */
  method PrintLine(ascii: array<char>) returns (line: string)
    requires ascii.Length == DUMP_WIDTH + 1 && '\0' !in ascii[..16]
    modifies ascii
    ensures line == ascii[..16] == old(ascii[..16]) && ascii[16] == '\0'
  {
    ascii[16] := '\0';
    assert ascii[..][..16] == ascii[..16];
    CStringWhole(ascii[..], 16);
    line := CString(ascii[..], 16);
  }

  /**
   * What `ascii[0..16)` holds after `i` bytes: the current line's characters
   * so far, then those of the line before (or the initial contents when
   * there was none).
   */
  function AsciiImage(buf: seq<u8>, i: nat, init: seq<char>): (a: seq<char>)
    requires i <= |buf| && |init| == DUMP_WIDTH + 1
    ensures |a| == DUMP_WIDTH
  {
    Image(buf, i - i % 16, i % 16, init)
  }

  /** AsciiImage for the line starting at byte `start`, `col` bytes into it. */
  function Image(buf: seq<u8>, start: nat, col: nat, init: seq<char>): (a: seq<char>)
    requires col < 16 && start + col <= |buf| && |init| == DUMP_WIDTH + 1
    ensures |a| == DUMP_WIDTH
  {
    seq(16, c requires 0 <= c < 16 =>
               if c < col then Printable(buf[start + c])
               else if start >= 16 then Printable(buf[start - 16 + c])
               else init[c])
  }

  /**
   * One turn of the loop for byte i: store its character; if it ends a line,
   * print the line.
   */
  method DumpByte(buf: seq<u8>, i: nat, ascii: array<char>, ghost init: seq<char>, lines: seq<string>)
      returns (lines': seq<string>, lineDone: bool)
    requires ascii.Length == DUMP_WIDTH + 1 && |init| == DUMP_WIDTH + 1 && i < |buf|
    requires ascii[..16] == AsciiImage(buf, i, init) && lines == FullLines(buf[..i])
    modifies ascii
    ensures ascii[..16] == AsciiImage(buf, i + 1, init) && lines' == FullLines(buf[..i + 1])
    ensures lineDone <==> (i + 1) % 16 == 0
  {
    lines', lineDone := lines, false;
    StoreChar(buf, i, ascii, init);
    FullLinesAppend(buf, i);
    if (i + 1) % 16 == 0 {
      var line := PrintLine(ascii);
      lines' := lines' + [line];
      lineDone := true;
    }
  }

  /** `ascii[i % 16] = isprint(buf[i]) ? buf[i] : '.'`. */
  method StoreChar(buf: seq<u8>, i: nat, ascii: array<char>, ghost init: seq<char>)
    requires ascii.Length == DUMP_WIDTH + 1 && |init| == DUMP_WIDTH + 1 && i < |buf|
    requires ascii[..16] == AsciiImage(buf, i, init)
    modifies ascii
    ensures ascii[..16] == AsciiImage(buf, i + 1, init)
    ensures (i + 1) % 16 == 0 ==> i >= 15 && ascii[..16] == PrintableString(buf[i - 15..i + 1])
  {
    ghost var before := ascii[..16];
    ascii[i % 16] := Printable(buf[i]);
    assert ascii[..16] == before[i % 16 := Printable(buf[i])];
    AsciiStep(buf, i, init);
  }

  /** Storing byte i's character gives the next image; at a line's end the image is that line. */
  lemma AsciiStep(buf: seq<u8>, i: nat, init: seq<char>)
    requires |init| == DUMP_WIDTH + 1 && i < |buf|
    ensures AsciiImage(buf, i, init)[i % 16 := Printable(buf[i])] == AsciiImage(buf, i + 1, init)
    ensures (i + 1) % 16 == 0 ==> i >= 15 && AsciiImage(buf, i + 1, init) == PrintableString(buf[i - 15..i + 1])
  {
    var r, q := i % 16, i / 16;
    var start := 16 * q;
    assert i == start + r;
    assert AsciiImage(buf, i, init) == Image(buf, start, r, init);
    if r == 15 {
      assert (i + 1) % 16 == 0 by {
        DivModUnique(16, q + 1, 0);
      }
      assert AsciiImage(buf, i + 1, init) == Image(buf, start + 16, 0, init);
      ImageLineEnds(buf, start, init);
    } else {
      assert (i + 1) % 16 == r + 1 by {
        DivModUnique(16, q, r + 1);
      }
      assert AsciiImage(buf, i + 1, init) == Image(buf, start, r + 1, init);
      ImageWithinLine(buf, start, r, init);
    }
  }

  /** A byte in the middle of a line: the image gains that byte's character. */
  lemma ImageWithinLine(buf: seq<u8>, start: nat, col: nat, init: seq<char>)
    requires col < 15 && start + col < |buf| && |init| == DUMP_WIDTH + 1
    ensures Image(buf, start, col, init)[col := Printable(buf[start + col])] == Image(buf, start, col + 1, init)
  {
    var a, b := Image(buf, start, col, init)[col := Printable(buf[start + col])], Image(buf, start, col + 1, init);
    forall c | 0 <= c < 16
      ensures a[c] == b[c]
    {
    }
  }

  /** The byte that completes a line: the image is then exactly that line. */
  lemma ImageLineEnds(buf: seq<u8>, start: nat, init: seq<char>)
    requires start + 16 <= |buf| && |init| == DUMP_WIDTH + 1
    ensures Image(buf, start, 15, init)[15 := Printable(buf[start + 15])] == Image(buf, start + 16, 0, init)
    ensures Image(buf, start + 16, 0, init) == PrintableString(buf[start..start + 16])
  {
    var a, b, line := Image(buf, start, 15, init)[15 := Printable(buf[start + 15])],
                      Image(buf, start + 16, 0, init), PrintableString(buf[start..start + 16]);
    forall c | 0 <= c < 16
      ensures a[c] == b[c] == line[c]
    {
      assert buf[start..start + 16][c] == buf[start + c];
    }
  }

  /** After the loop the array holds the partial line, then the stale character. */
  lemma AsciiFinal(buf: seq<u8>, init: seq<char>)
    requires |init| == DUMP_WIDTH + 1
    ensures AsciiImage(buf, |buf|, init)[..|buf| % 16] == PrintableString(TailBytes(buf))
    ensures AsciiImage(buf, |buf|, init)[|buf| % 16] == Stale(buf, init)
  {
    var start, col := |buf| - |buf| % 16, |buf| % 16;
    var a := Image(buf, start, col, init);
    assert start >= 16 <==> |buf| >= 16;
    assert a[..col] == PrintableString(buf[start..]);
  }

  /** `d()`'s text column as written. */
  method DumpTextColumnAsWritten(buf: seq<u8>, ascii: array<char>) returns (lines: seq<string>)
    requires ascii.Length == DUMP_WIDTH + 1
    modifies ascii
    ensures lines == DumpTextAsWritten(buf, old(ascii[..]))
  {
    ghost var init := ascii[..];
    var lineDone;
    lines, lineDone := DumpLines(buf, ascii);
    if !lineDone {
      var k := |buf| % 16;
      ascii[k + 1] := '\0';
      TrailerAsWritten(ascii[..], k, PrintableString(TailBytes(buf)), Stale(buf, init));
      lines := lines + [CString(ascii[..], 16)];
    }
  }

  /** The trailing line as written: the partial line, then the stale character unless it is a NUL. */
  lemma TrailerAsWritten(s: seq<char>, k: nat, text: string, stale: char)
    requires k < 16 && |s| == 17 && s[..k] == text && s[k] == stale && s[k + 1] == '\0'
    requires '\0' !in text
    ensures CString(s, 16) == text + if stale == '\0' then [] else [stale]
  {
    if stale == '\0' {
      CStringUpTo(s, 16, k);
    } else {
      assert s[..k + 1] == text + [stale];
      if k + 1 < 16 {
        CStringUpTo(s, 16, k + 1);
      } else {
        CStringWhole(s, 16);
      }
    }
  }

  /** A NUL at position k < max ends the printed text there. */
  lemma {:induction false} CStringUpTo(s: seq<char>, max: nat, k: nat)
    requires k < max && k < |s| && '\0' !in s[..k] && s[k] == '\0'
    ensures CString(s, max) == s[..k]
  {
    if k > 0 {
      assert s[0] == s[..k][0];
      CStringUpTo(s[1..], max - 1, k - 1);
      assert s[1..][..k - 1] == s[1..k];
      assert s[..k] == [s[0]] + s[1..k];
    }
  }

  /** `d()`'s text column with the trailing NUL at `ascii[len % 16]`. */
  method DumpTextColumn(buf: seq<u8>, ascii: array<char>) returns (lines: seq<string>)
    requires ascii.Length == DUMP_WIDTH + 1
    modifies ascii
    ensures lines == DumpText(buf)
  {
    var lineDone;
    lines, lineDone := DumpLines(buf, ascii);
    if !lineDone {
      var k := |buf| % 16;
      ascii[k] := '\0';
      CStringUpTo(ascii[..], 16, k);
      lines := lines + [CString(ascii[..], 16)];
    }
  }

  /**
   * A 20-byte buffer "ABCDEFGHIJKLMNOPQRST": the second line's text comes out
   * as "QRSTE", the fifth byte of the first line following the four of the
   * second; the corrected column shows "QRST".
   */
  lemma StaleCharacterShown(init: seq<char>)
    requires |init| == DUMP_WIDTH + 1
    ensures DumpTextAsWritten(seq(20, i => 0x41 + i), init)[1] == "QRSTE"
    ensures DumpText(seq(20, i => 0x41 + i))[1] == "QRST"
  {
    var buf: seq<u8> := seq(20, i => 0x41 + i);
    assert TailBytes(buf) == [0x51, 0x52, 0x53, 0x54];
    assert PrintableString(TailBytes(buf)) == "QRST";
    assert Stale(buf, init) == 'E';
  }

  /** Concatenated, the corrected text column is the printable image of the whole buffer. */
  lemma DumpTextCoversBuffer(buf: seq<u8>)
    ensures Concat(DumpText(buf)) == PrintableString(buf)
  {
    var m := |buf| / 16;
    var n := |buf| - |buf| % 16;
    assert n == 16 * m;
    var tail := PrintableString(TailBytes(buf));
    FullLinesCover(buf, m);
    FullLinesOfWholeLines(buf);
    assert Concat(FullLines(buf)) == PrintableString(buf[..n]);
    TailSplits(buf);
    PrintableConcat(buf[..n], TailBytes(buf));
    assert PrintableString(buf) == Concat(FullLines(buf)) + tail;
    if HasTrailer(|buf|) {
      assert DumpText(buf) == FullLines(buf) + [tail];
      ConcatSnoc(FullLines(buf), tail);
    } else {
      assert DumpText(buf) == FullLines(buf);
      assert tail == [] && PrintableString(buf) == Concat(FullLines(buf)) + [];
    }
  }

  lemma TailSplits(buf: seq<u8>)
    ensures buf[..|buf| - |buf| % 16] + TailBytes(buf) == buf
  {
  }

  /** The partial line contributes no complete line. */
  lemma FullLinesOfWholeLines(buf: seq<u8>)
    ensures FullLines(buf[..|buf| - |buf| % 16]) == FullLines(buf)
  {
    var n := |buf| - |buf| % 16;
    var a, b := FullLines(buf[..n]), FullLines(buf);
    assert n / 16 == |buf| / 16;
    forall j | 0 <= j < |a|
      ensures a[j] == b[j]
    {
      assert buf[..n][16 * j..16 * j + 16] == buf[16 * j..16 * j + 16];
    }
  }

  function Concat(lines: seq<string>): string
  {
    if |lines| == 0 then [] else Concat(lines[..|lines| - 1]) + lines[|lines| - 1]
  }

  lemma ConcatSnoc(lines: seq<string>, line: string)
    ensures Concat(lines + [line]) == Concat(lines) + line
  {
    assert (lines + [line])[..|lines|] == lines;
  }

  lemma {:induction false} PrintableConcat(a: seq<u8>, b: seq<u8>)
    ensures PrintableString(a + b) == PrintableString(a) + PrintableString(b)
  {
    var l, r := PrintableString(a + b), PrintableString(a) + PrintableString(b);
    assert |l| == |r|;
    forall i | 0 <= i < |l|
      ensures l[i] == r[i]
    {
      if i < |a| { assert (a + b)[i] == a[i]; } else { assert (a + b)[i] == b[i - |a|]; }
    }
  }

  /** The first `m` complete lines, concatenated, are the first 16 * m bytes' characters. */
  lemma {:induction false} FullLinesCover(buf: seq<u8>, m: nat)
    requires 16 * m <= |buf|
    ensures Concat(FullLines(buf[..16 * m])) == PrintableString(buf[..16 * m])
  {
    if m > 0 {
      var i := 16 * (m - 1);
      FullLinesCover(buf, m - 1);
      FullLinesStep(buf, i);
      ConcatSnoc(FullLines(buf[..i]), PrintableString(buf[i..i + 16]));
      assert buf[..i] + buf[i..i + 16] == buf[..i + 16];
      PrintableConcat(buf[..i], buf[i..i + 16]);
    }
  }

  // --------------------------------------------------------------- Raw dump

  /** d_raw: every byte of `buf[0..len)` in order, nothing else. */
  method DumpRaw(buf: array<u8>, len: u32) returns (out: seq<u8>)
    requires len <= buf.Length
    ensures out == buf[..len]
  {
    out := [];
    var i := 0;
    while i < len
      invariant 0 <= i <= len
      invariant out == buf[..i]
    {
      out := out + [buf[i]];
      assert buf[..i + 1] == buf[..i] + [buf[i]];
      i := i + 1;
    }
  }
}

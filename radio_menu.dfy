/** Three rules of the radio menu: the open-collector (OC) outputs the N2ADR
    filter board needs on the HF bands, the clamp on the capture time, and the
    acceptance rule for the operator's callsign and locator. */
module RadioMenu {
  import opened Wrappers
  import opened BandCatalog
  import opened BandState

  // ---------------------------------------------------------------------
  // N2ADR filter board (radio_menu.c:234-304)
  // ---------------------------------------------------------------------

  /** The OC bit that switches in the board's 3 MHz high-pass filter (bit 6). */
  const HighPassBit := 64

  /** The OC mask n2adr_oc_settings writes to both OCrx and OCtx of band b,
      None for a band it leaves alone. Only the ten HF bands 160 m .. 10 m are set. */
  function N2adrMask(b: int): (m: Option<int>)
    ensures m.Some? <==> Band160 <= b <= Band10
  {
    if b == Band160 then Some(1)
    else if b == Band80 then Some(66)
    else if b == Band60 || b == Band40 then Some(68)
    else if b == Band30 || b == Band20 then Some(72)
    else if b == Band17 || b == Band15 then Some(80)
    else if b == Band12 || b == Band10 then Some(96)
    else None
  }

  /** The (OCrx, OCtx) pair n2adr_oc_settings_tx writes to band b, None for a
      band it leaves alone. 160 m never gets the high-pass filter; the other
      HF bands get it on receive only when hpfEnable is 1. */
  function N2adrTxMasks(b: int, hpfEnable: int): (m: Option<(int, int)>)
    ensures m.Some? <==> Band160 <= b <= Band10
  {
    var rx := if hpfEnable == 1 then HighPassBit else 0;
    if b == Band160 then Some((0, 1))
    else if b == Band80 then Some((rx, 66))
    else if b == Band60 || b == Band40 then Some((rx, 68))
    else if b == Band30 || b == Band20 then Some((rx, 72))
    else if b == Band17 || b == Band15 then Some((rx, 80))
    else if b == Band12 || b == Band10 then Some((rx, 96))
    else None
  }

  predicate IsPowerOfTwo(n: int) {
    n == 1 || n == 2 || n == 4 || n == 8 || n == 16 || n == 32
  }

  /** Each HF mask selects exactly one of the board's six low-pass filters
      (bits 0..5), the 160 m mask no high-pass filter and every other band the
      high-pass filter, and a higher band never selects a lower low-pass filter. */
  lemma N2adrMaskLayout(b1: int, b2: int)
    requires Band160 <= b1 <= b2 <= Band10
    ensures IsPowerOfTwo(N2adrMask(b1).value % HighPassBit)
    ensures N2adrMask(b1).value / HighPassBit == if b1 == Band160 then 0 else 1
    ensures N2adrMask(b1).value % HighPassBit <= N2adrMask(b2).value % HighPassBit
  {
  }

  /** The band table after n2adr_oc_settings: the ten HF bands carry their
      mask on receive and transmit, every other band is as it was. */
  function OcSettings(bands: seq<Band>): (r: seq<Band>)
    requires |bands| == TableSize
    ensures |r| == TableSize
  {
    seq(TableSize, i requires 0 <= i < TableSize =>
      match N2adrMask(i)
      case Some(m) => bands[i].(ocRx := m, ocTx := m)
      case None => bands[i])
  }

  /** The band table after n2adr_oc_settings_tx. */
  function OcSettingsTx(bands: seq<Band>, hpfEnable: int): (r: seq<Band>)
    requires |bands| == TableSize
    ensures |r| == TableSize
  {
    seq(TableSize, i requires 0 <= i < TableSize =>
      match N2adrTxMasks(i, hpfEnable)
      case Some((rx, tx)) => bands[i].(ocRx := rx, ocTx := tx)
      case None => bands[i])
  }

  /** Both routines touch only the OC fields of the ten HF bands: 136 kHz,
      472 kHz, 6 m and up and the transverter slots keep their records, and no
      record changes anything but OCrx and OCtx. So the table stays well-formed. */
  lemma OcSettingsFrame(bands: seq<Band>, cats: seq<seq<Entry>>, hpfEnable: int)
    requires |bands| == TableSize
    ensures forall i :: 0 <= i < TableSize && !(Band160 <= i <= Band10) ==>
      OcSettings(bands)[i] == bands[i] && OcSettingsTx(bands, hpfEnable)[i] == bands[i]
    ensures forall i :: 0 <= i < TableSize ==>
      OcSettings(bands)[i].(ocRx := bands[i].ocRx, ocTx := bands[i].ocTx) == bands[i] &&
      OcSettingsTx(bands, hpfEnable)[i].(ocRx := bands[i].ocRx, ocTx := bands[i].ocTx) == bands[i]
    ensures WellFormed(bands, cats) ==>
      WellFormed(OcSettings(bands), cats) && WellFormed(OcSettingsTx(bands, hpfEnable), cats)
  {
    var r, t := OcSettings(bands), OcSettingsTx(bands, hpfEnable);
    forall i | 0 <= i < TableSize
      ensures r[i].(ocRx := bands[i].ocRx, ocTx := bands[i].ocTx) == bands[i]
      ensures t[i].(ocRx := bands[i].ocRx, ocTx := bands[i].ocTx) == bands[i]
    {
      if Band160 <= i <= Band10 {
        assert r[i] == bands[i].(ocRx := N2adrMask(i).value, ocTx := N2adrMask(i).value);
        var (rx, tx) := N2adrTxMasks(i, hpfEnable).value;
        assert t[i] == bands[i].(ocRx := rx, ocTx := tx);
      }
    }
    if WellFormed(bands, cats) {
      forall i | 0 <= i < TableSize ensures StackBound(i, r[i].stack) && StackBound(i, t[i].stack) {
        assert r[i].stack == bands[i].stack == t[i].stack by {
          assert r[i].(ocRx := bands[i].ocRx, ocTx := bands[i].ocTx) == bands[i];
          assert t[i].(ocRx := bands[i].ocRx, ocTx := bands[i].ocTx) == bands[i];
        }
      }
    }
  }

  /** The values written: n2adr_oc_settings gives each of the ten HF bands its
      mask on both receive and transmit, and n2adr_oc_settings_tx gives each
      the same mask on transmit (1 on 160 m, 66 on 80 m, ..., 96 on 10 m). */
  lemma OcSettingsValues(bands: seq<Band>, hpfEnable: int)
    requires |bands| == TableSize
    ensures forall i :: Band160 <= i <= Band10 ==>
      OcSettings(bands)[i].ocRx == N2adrMask(i).value && OcSettings(bands)[i].ocTx == N2adrMask(i).value
    ensures forall i :: Band160 <= i <= Band10 ==>
      OcSettingsTx(bands, hpfEnable)[i].ocTx == N2adrMask(i).value
  {
    forall i | Band160 <= i <= Band10
      ensures OcSettings(bands)[i].ocRx == N2adrMask(i).value && OcSettings(bands)[i].ocTx == N2adrMask(i).value
      ensures OcSettingsTx(bands, hpfEnable)[i].ocTx == N2adrMask(i).value
    {
      var (rx, tx) := N2adrTxMasks(i, hpfEnable).value;
      assert tx == N2adrMask(i).value;
      assert OcSettingsTx(bands, hpfEnable)[i] == bands[i].(ocRx := rx, ocTx := tx);
    }
  }

  /** The two routines agree on every transmit mask; on receive the transmit
      variant leaves 160 m without the high-pass filter and gives it to 80 m .. 10 m
      exactly when hpfEnable is 1, and nothing else. */
  lemma OcSettingsTxAgrees(bands: seq<Band>, hpfEnable: int)
    requires |bands| == TableSize
    ensures forall i :: 0 <= i < TableSize ==> OcSettingsTx(bands, hpfEnable)[i].ocTx == OcSettings(bands)[i].ocTx
    ensures forall i :: Band160 <= i <= Band10 ==>
      OcSettingsTx(bands, hpfEnable)[i].ocRx == if i != Band160 && hpfEnable == 1 then HighPassBit else 0
  {
    forall i | 0 <= i < TableSize
      ensures OcSettingsTx(bands, hpfEnable)[i].ocTx == OcSettings(bands)[i].ocTx
    {
      if Band160 <= i <= Band10 {
        assert N2adrTxMasks(i, hpfEnable).value.1 == N2adrMask(i).value;
      }
    }
  }

  /** Running either routine twice is running it once. */
  lemma OcSettingsIdempotent(bands: seq<Band>, hpfEnable: int)
    requires |bands| == TableSize
    ensures OcSettings(OcSettings(bands)) == OcSettings(bands)
    ensures OcSettingsTx(OcSettingsTx(bands, hpfEnable), hpfEnable) == OcSettingsTx(bands, hpfEnable)
  {
    var r, t := OcSettings(bands), OcSettingsTx(bands, hpfEnable);
    assert OcSettings(r) == r by {
      forall i | 0 <= i < TableSize ensures OcSettings(r)[i] == r[i] {
        if Band160 <= i <= Band10 {
          var m := N2adrMask(i).value;
          assert r[i] == bands[i].(ocRx := m, ocTx := m);
        }
      }
    }
    assert OcSettingsTx(t, hpfEnable) == t by {
      forall i | 0 <= i < TableSize ensures OcSettingsTx(t, hpfEnable)[i] == t[i] {
        if Band160 <= i <= Band10 {
          var (rx, tx) := N2adrTxMasks(i, hpfEnable).value;
          assert t[i] == bands[i].(ocRx := rx, ocTx := tx);
        }
      }
    }
  }

  /** The table n2adr_oc_settings_tx (tx) or n2adr_oc_settings (not tx) has
      built once the writes to the bands below n are done. */
  ghost function OcUpTo(bands: seq<Band>, tx: bool, hpfEnable: int, n: int): (r: seq<Band>)
    requires |bands| == TableSize
    ensures |r| == TableSize
  {
    seq(TableSize, i requires 0 <= i < TableSize =>
      if i < n then (if tx then OcSettingsTx(bands, hpfEnable)[i] else OcSettings(bands)[i]) else bands[i])
  }

  /** Before the write to HF band n the partial table still holds band n as it
      was, and writing that band's masks extends the partial table by one. */
  lemma OcStep(bands: seq<Band>, tx: bool, hpfEnable: int, n: int)
    requires |bands| == TableSize && Band160 <= n <= Band10
    ensures OcUpTo(bands, tx, hpfEnable, n)[n] == bands[n]
    ensures var (rx, t) := if tx then N2adrTxMasks(n, hpfEnable).value else (N2adrMask(n).value, N2adrMask(n).value);
      OcUpTo(bands, tx, hpfEnable, n)[n := bands[n].(ocRx := rx, ocTx := t)] == OcUpTo(bands, tx, hpfEnable, n + 1)
  {
    var (rx, t) := if tx then N2adrTxMasks(n, hpfEnable).value else (N2adrMask(n).value, N2adrMask(n).value);
    assert (if tx then OcSettingsTx(bands, hpfEnable)[n] else OcSettings(bands)[n]) == bands[n].(ocRx := rx, ocTx := t);
  }

  /** The partial table is the original before the first write and the full
      routine's table after the last. */
  lemma OcUpToEnds(bands: seq<Band>, tx: bool, hpfEnable: int)
    requires |bands| == TableSize
    ensures OcUpTo(bands, tx, hpfEnable, Band160) == bands
    ensures OcUpTo(bands, tx, hpfEnable, Band10 + 1) ==
      if tx then OcSettingsTx(bands, hpfEnable) else OcSettings(bands)
  {
    assert OcUpTo(bands, tx, hpfEnable, Band160) == bands by {
      forall i | 0 <= i < TableSize ensures OcUpTo(bands, tx, hpfEnable, Band160)[i] == bands[i] {
        if i < Band160 {
          assert OcSettings(bands)[i] == bands[i] && OcSettingsTx(bands, hpfEnable)[i] == bands[i];
        }
      }
    }
  }

  /** One write through band_get_band(n): OCrx and OCtx of HF band n, taking
      the partial table one band further. */
  method SetBandOc(bands: array<Band>, ghost b0: seq<Band>, ghost tx: bool, ghost hpfEnable: int,
                   n: int, rx: int, t: int)
    requires |b0| == TableSize && Band160 <= n <= Band10 && bands.Length == TableSize
    requires (rx, t) == if tx then N2adrTxMasks(n, hpfEnable).value else (N2adrMask(n).value, N2adrMask(n).value)
    requires bands[..] == OcUpTo(b0, tx, hpfEnable, n)
    modifies bands
    ensures bands[..] == OcUpTo(b0, tx, hpfEnable, n + 1)
  {
    OcStep(b0, tx, hpfEnable, n);
    bands[n] := bands[n].(ocRx := rx, ocTx := t);
  }

  /** n2adr_oc_settings: ten writes through band_get_band. */
  method N2adrOcSettings(reg: BandRegistry)
    requires reg.Valid()
    modifies reg.bands
    ensures reg.Valid()
    ensures reg.bands[..] == OcSettings(old(reg.bands[..]))
  {
    ghost var b0 := reg.bands[..];
    OcUpToEnds(b0, false, 0);
    OcSettingsFrame(b0, reg.catalogs[..], 0);
    SetBandOc(reg.bands, b0, false, 0, Band160, 1, 1);
    SetBandOc(reg.bands, b0, false, 0, Band80, 66, 66);
    SetBandOc(reg.bands, b0, false, 0, Band60, 68, 68);
    SetBandOc(reg.bands, b0, false, 0, Band40, 68, 68);
    SetBandOc(reg.bands, b0, false, 0, Band30, 72, 72);
    SetBandOc(reg.bands, b0, false, 0, Band20, 72, 72);
    SetBandOc(reg.bands, b0, false, 0, Band17, 80, 80);
    SetBandOc(reg.bands, b0, false, 0, Band15, 80, 80);
    SetBandOc(reg.bands, b0, false, 0, Band12, 96, 96);
    SetBandOc(reg.bands, b0, false, 0, Band10, 96, 96);
  }

  /** n2adr_oc_settings_tx: the receive mask is chosen once from hpfEnable. */
  method N2adrOcSettingsTx(reg: BandRegistry, hpfEnable: int)
    requires reg.Valid()
    modifies reg.bands
    ensures reg.Valid()
    ensures reg.bands[..] == OcSettingsTx(old(reg.bands[..]), hpfEnable)
  {
    ghost var b0 := reg.bands[..];
    OcUpToEnds(b0, true, hpfEnable);
    OcSettingsFrame(b0, reg.catalogs[..], hpfEnable);
    var rx := if hpfEnable == 1 then HighPassBit else 0;
    SetBandOc(reg.bands, b0, true, hpfEnable, Band160, 0, 1);
    SetBandOc(reg.bands, b0, true, hpfEnable, Band80, rx, 66);
    SetBandOc(reg.bands, b0, true, hpfEnable, Band60, rx, 68);
    SetBandOc(reg.bands, b0, true, hpfEnable, Band40, rx, 68);
    SetBandOc(reg.bands, b0, true, hpfEnable, Band30, rx, 72);
    SetBandOc(reg.bands, b0, true, hpfEnable, Band20, rx, 72);
    SetBandOc(reg.bands, b0, true, hpfEnable, Band17, rx, 80);
    SetBandOc(reg.bands, b0, true, hpfEnable, Band15, rx, 80);
    SetBandOc(reg.bands, b0, true, hpfEnable, Band12, rx, 96);
    SetBandOc(reg.bands, b0, true, hpfEnable, Band10, rx, 96);
  }

  // ---------------------------------------------------------------------
  // Capture time (radio_menu.c:129-151)
  // ---------------------------------------------------------------------

  /** Capture sample rate: one capture second is 48000 samples. */
  const CaptureRate := 48000
  const MinCaptureTime := 10
  const MaxCaptureTime := 120

  /** The capture time the spin button's value t is taken as, in seconds. */
  function ClampCaptureTime(t: int): (c: int)
    ensures MinCaptureTime <= c <= MaxCaptureTime
    ensures MinCaptureTime <= t <= MaxCaptureTime ==> c == t
    ensures t < MinCaptureTime ==> c == MinCaptureTime
    ensures t > MaxCaptureTime ==> c == MaxCaptureTime
  {
    if t < MinCaptureTime then MinCaptureTime else if t > MaxCaptureTime then MaxCaptureTime else t
  }

  /** The clamp is idempotent and monotone, so the capture buffer never
      shrinks when the requested time grows, and always holds 10 .. 120 s. */
  lemma ClampCaptureTimeOrder(t1: int, t2: int)
    requires t1 <= t2
    ensures ClampCaptureTime(ClampCaptureTime(t1)) == ClampCaptureTime(t1)
    ensures ClampCaptureTime(t1) * CaptureRate <= ClampCaptureTime(t2) * CaptureRate
    ensures 480000 <= ClampCaptureTime(t1) * CaptureRate <= 5760000
  {
  }

  /** The capture machine's state; only the reset state is named here. */
  datatype CaptureState = CapInit | CapActive(code: int)

  /** Which collaborator the capture-time change stops first. */
  datatype CaptureStop = EndPlayback | EndCapture

  /** The capture buffer: its size in samples, the sample buffer, the record
      and replay positions and the capture state. */
  class Capture {
    var max: int
    var data: array?<real>
    var recordPointer: int
    var replayPointer: int
    var state: CaptureState

    /** Both positions lie inside the buffer, whose length is max. */
    predicate Valid()
      reads this
    {
      0 <= recordPointer <= max && 0 <= replayPointer <= max &&
      (data != null ==> data.Length == max)
    }

    /** No buffer allocated yet. */
    constructor ()
      ensures Valid() && data == null && max == 0 && state == CapInit
    {
      max := 0;
      data := null;
      recordPointer := 0;
      replayPointer := 0;
      state := CapInit;
    }

    /** capture_time_changed_cb: stop what is running (playback while
        transmitting, capture otherwise), then reallocate the buffer for the
        clamped time and reset both positions and the state. */
    method CaptureTimeChanged(t: int, transmitting: bool) returns (stopped: CaptureStop)
      modifies this
      ensures Valid()
      ensures stopped == if transmitting then EndPlayback else EndCapture
      ensures max == ClampCaptureTime(t) * CaptureRate
      ensures data != null && fresh(data) && data.Length == max
      ensures recordPointer == 0 && replayPointer == 0 && state == CapInit
    {
      var c := if t < MinCaptureTime then MinCaptureTime else if t > MaxCaptureTime then MaxCaptureTime else t;
      if transmitting {
        stopped := EndPlayback;
      } else {
        stopped := EndCapture;
      }
      max := c * CaptureRate;
      data := null;
      data := new real[max];
      recordPointer := 0;
      replayPointer := 0;
      state := CapInit;
    }
  }

  // ---------------------------------------------------------------------
  // Callsign and locator (radio_menu.c:525-562)
  // ---------------------------------------------------------------------

  /** A byte of a C string. GTK hands entry text over as UTF-8, so a
      character outside ASCII takes two to four of these. */
  type Byte = x: int | 0 <= x < 256

  /** The terminating NUL byte. */
  const Nul: Byte := 0

  /** strlen: the number of bytes before the first NUL. */
  function CLength(s: seq<Byte>): (n: nat)
    ensures n <= |s|
    ensures forall i :: 0 <= i < n ==> s[i] != Nul
    ensures n < |s| ==> s[n] == Nul
  {
    if |s| == 0 || s[0] == Nul then 0 else 1 + CLength(s[1..])
  }

  /** g_ascii_toupper on one byte: only 'a' .. 'z' (97 .. 122) change, each
      to its capital; every other byte, the bytes of a multibyte UTF-8
      character among them, is kept. */
  function AsciiUpperByte(c: Byte): (u: Byte)
    ensures 97 <= c <= 122 ==> 65 <= u <= 90 && u == c - 32
    ensures !(97 <= c <= 122) ==> u == c
  {
    if 97 <= c <= 122 then c - 32 else c
  }

  /** g_ascii_strup on a NUL-free byte string. */
  function AsciiUpper(s: seq<Byte>): (u: seq<Byte>)
    ensures |u| == |s|
    ensures forall i :: 0 <= i < |s| ==> u[i] == AsciiUpperByte(s[i])
  {
    seq(|s|, i requires 0 <= i < |s| => AsciiUpperByte(s[i]))
  }

  /** An upper-cased string has no lower-case ASCII letter, has no NUL where
      the input had none, and upper-casing it again changes nothing. */
  lemma AsciiUpperIdempotent(s: seq<Byte>)
    ensures forall i :: 0 <= i < |s| ==> !(97 <= AsciiUpper(s)[i] <= 122)
    ensures Nul !in s ==> Nul !in AsciiUpper(s)
    ensures AsciiUpper(AsciiUpper(s)) == AsciiUpper(s)
  {
    if Nul !in s {
      forall i | 0 <= i < |s| ensures AsciiUpper(s)[i] != Nul {
        assert s[i] != Nul;
      }
    }
  }

  /** The entry's text is taken when there is one and its length in bytes is
      at least 3 and leaves room for the terminating NUL in a buffer of size
      bytes. */
  predicate Accepts(text: Option<seq<Byte>>, size: int) {
    text.Some? && 3 <= CLength(text.value) < size
  }

  /** The length limit counts bytes, not characters: "DL1ÄBCDEF" has nine
      characters but ten UTF-8 bytes (Ä is 0xC3 0x84), so a buffer of ten
      bytes refuses it and one of eleven takes it. */
  lemma AcceptsCountsBytes()
    ensures !Accepts(Some([68, 76, 49, 0xC3, 0x84, 66, 67, 68, 69, 70]), 10)
    ensures Accepts(Some([68, 76, 49, 0xC3, 0x84, 66, 67, 68, 69, 70]), 11)
  {
    NulFreeLength([68, 76, 49, 0xC3, 0x84, 66, 67, 68, 69, 70]);
  }

  /** An operator setting kept in a fixed char buffer of size bytes (the
      station callsign, the station locator). */
  class OwnText {
    const size: nat
    var value: seq<Byte>

    /** The value is a C string that fits the buffer. */
    predicate Valid()
      reads this
    {
      |value| < size && Nul !in value
    }

    constructor (size0: nat, value0: seq<Byte>)
      requires |value0| < size0 && Nul !in value0
      ensures Valid() && size == size0 && value == value0
    {
      size := size0;
      value := value0;
    }

    /** callsign_button_clicked / locator_button_clicked: an accepted text is
        stored upper-cased and stays in the entry box; otherwise the setting
        is kept and the entry box is reset to it. Returns the text the entry
        box shows afterwards. */
    method ButtonClicked(text: Option<seq<Byte>>) returns (shown: seq<Byte>)
      requires Valid()
      modifies this
      ensures Valid()
      ensures Accepts(text, size) ==> value == AsciiUpper(text.value[..CLength(text.value)]) && shown == text.value
      ensures !Accepts(text, size) ==> value == old(value) && shown == value
    {
      var len := if text.Some? then CLength(text.value) else 0;
      if text.Some? && len >= 3 && len < size {
        AsciiUpperIdempotent(text.value[..len]);
        value := AsciiUpper(text.value[..len]);
        shown := text.value;
      } else {
        shown := value;
      }
    }
  }

  /** A stored setting is accepted again as it stands: clicking the button
      with the text the box shows after an acceptance keeps the setting. */
  lemma StoredTextAccepted(text: seq<Byte>, size: nat)
    requires Accepts(Some(text), size)
    ensures Accepts(Some(AsciiUpper(text[..CLength(text)])), size)
    ensures AsciiUpper(AsciiUpper(text[..CLength(text)])[..CLength(AsciiUpper(text[..CLength(text)]))]) ==
            AsciiUpper(text[..CLength(text)])
  {
    var s := text[..CLength(text)];
    AsciiUpperIdempotent(s);
    NulFreeLength(AsciiUpper(s));
  }

  /** strlen of a NUL-free string is its length in bytes. */
  lemma {:induction false} NulFreeLength(s: seq<Byte>)
    requires Nul !in s
    ensures CLength(s) == |s|
  {
    if |s| > 0 {
      assert Nul !in s[1..] by {
        forall i | 0 <= i < |s| - 1 ensures s[1..][i] != Nul {
          assert s[1..][i] == s[i + 1];
        }
      }
      NulFreeLength(s[1..]);
    }
  }
}

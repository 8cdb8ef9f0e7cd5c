/** The variable-filter edits of the filter menu: the two spin buttons of a
    variable filter set its width and shift (or, in the sideband modes, one
    of its cut frequencies), and every receiver using that filter is told. */
module FilterMenu {
  import opened Modes

  /** The audio passband of one filter, in Hz relative to the carrier. */
  datatype Filter = Filter(low: int, high: int)

  /** What a receiver's VFO records: its mode and its filter slot. */
  datatype Vfo = Vfo(mode: int, filter: int)

  /** C's a / 2, which truncates toward zero: the remainder takes the sign of a. */
  function Half(a: int): (q: int)
    ensures a >= 0 ==> 2 * q <= a <= 2 * q + 1
    ensures a < 0 ==> 2 * q - 1 <= a <= 2 * q
  {
    if a >= 0 then a / 2 else -((-a) / 2)
  }

  /** Twice half of w gives w back exactly when w is even, and halving
      commutes with negation. */
  lemma HalfTwice(w: int)
    ensures 2 * Half(w) == w <==> w % 2 == 0
    ensures Half(-w) == -Half(w)
  {
  }

  // ---------------------------------------------------------------------
  // The low spin button: width (filter_menu.c:198-235)
  // ---------------------------------------------------------------------

  /** The filter after the low spin button is set to val in mode m: a new
      width around the old centre in the width/shift modes, the upper cut at
      -val in the lower-sideband modes, the lower cut at val in the
      upper-sideband modes, and no change in any other mode. */
  function WidthEdit(m: int, flt: Filter, val: int): (r: Filter)
    ensures IsWidthShiftMode(m) ==> r.high - r.low == 2 * Half(val)
    ensures !IsWidthShiftMode(m) && IsLowerSideband(m) ==> r.low == flt.low
    ensures !IsWidthShiftMode(m) && IsUpperSideband(m) ==> r.high == flt.high
  {
    if IsWidthShiftMode(m) then
      var shift := Half(flt.low + flt.high);
      Filter(shift - Half(val), shift + Half(val))
    else if IsLowerSideband(m) then flt.(high := -val)
    else if IsUpperSideband(m) then flt.(low := val)
    else flt
  }

  /** In the width/shift modes the width edit keeps the centre (as C rounds
      it) and sets the width to twice half of val, which is val exactly when
      val is even; when low + high was even the sum does not move at all. */
  lemma WidthEditKeepsCentre(m: int, flt: Filter, val: int)
    requires IsWidthShiftMode(m)
    ensures WidthEdit(m, flt, val).low + WidthEdit(m, flt, val).high == 2 * Half(flt.low + flt.high)
    ensures WidthEdit(m, flt, val).high - WidthEdit(m, flt, val).low == 2 * Half(val)
    ensures WidthEdit(m, flt, val).high - WidthEdit(m, flt, val).low == val <==> val % 2 == 0
    ensures (flt.low + flt.high) % 2 == 0 ==>
      WidthEdit(m, flt, val).low + WidthEdit(m, flt, val).high == flt.low + flt.high
  {
    HalfTwice(val);
    HalfTwice(flt.low + flt.high);
  }

  /** In the sideband modes the width edit moves one cut and keeps the other:
      the upper cut in lower sideband, the lower cut in upper sideband. In
      every mode that is neither, the filter does not change. */
  lemma WidthEditSideband(m: int, flt: Filter, val: int)
    requires !IsWidthShiftMode(m)
    ensures IsLowerSideband(m) ==> WidthEdit(m, flt, val) == Filter(flt.low, -val)
    ensures IsUpperSideband(m) ==> WidthEdit(m, flt, val) == Filter(val, flt.high)
    ensures !IsLowerSideband(m) && !IsUpperSideband(m) ==> WidthEdit(m, flt, val) == flt
  {
    assert ModeLSB != ModeUSB && ModeLSB != ModeDIGU && ModeDIGL != ModeUSB && ModeDIGL != ModeDIGU;
  }

  // ---------------------------------------------------------------------
  // The high spin button: shift (filter_menu.c:253-299)
  // ---------------------------------------------------------------------

  /** The filter after the high spin button is set to val in mode m: a new
      centre (-val in CWL, whose shift is in the audio domain, val in the other
      width/shift modes) with the old width, the lower cut at -val in the
      lower-sideband modes, the upper cut at val in the upper-sideband modes,
      and no change in any other mode. */
  function ShiftEdit(m: int, flt: Filter, val: int): (r: Filter)
    ensures IsWidthShiftMode(m) ==> r.high - r.low == 2 * Half(flt.high - flt.low)
    ensures !IsWidthShiftMode(m) && IsLowerSideband(m) ==> r.high == flt.high
    ensures !IsWidthShiftMode(m) && IsUpperSideband(m) ==> r.low == flt.low
  {
    if m == ModeCWL then
      var width := flt.high - flt.low;
      Filter(-val - Half(width), -val + Half(width))
    else if IsWidthShiftMode(m) then
      var width := flt.high - flt.low;
      Filter(val - Half(width), val + Half(width))
    else if IsLowerSideband(m) then flt.(low := -val)
    else if IsUpperSideband(m) then flt.(high := val)
    else flt
  }

  /** In the width/shift modes the shift edit centres the filter on val (on
      -val in CWL, the mirror image of CWU) and keeps the width exactly when
      the old width is even; an odd width loses one hertz. */
  lemma ShiftEditKeepsWidth(m: int, flt: Filter, val: int)
    requires IsWidthShiftMode(m)
    ensures var r := ShiftEdit(m, flt, val);
      r.low + r.high == (if m == ModeCWL then -2 * val else 2 * val) &&
      r.high - r.low == 2 * Half(flt.high - flt.low) &&
      (r.high - r.low == flt.high - flt.low <==> (flt.high - flt.low) % 2 == 0)
    ensures m == ModeCWL ==> ShiftEdit(m, flt, val) == ShiftEdit(ModeCWU, flt, -val)
  {
    HalfTwice(flt.high - flt.low);
  }

  /** In the sideband modes the shift edit moves one cut and keeps the other:
      the lower cut in lower sideband, the upper cut in upper sideband. In
      every mode that is neither, the filter does not change. */
  lemma ShiftEditSideband(m: int, flt: Filter, val: int)
    requires !IsWidthShiftMode(m)
    ensures IsLowerSideband(m) ==> ShiftEdit(m, flt, val) == Filter(-val, flt.high)
    ensures IsUpperSideband(m) ==> ShiftEdit(m, flt, val) == Filter(flt.low, val)
    ensures !IsLowerSideband(m) && !IsUpperSideband(m) ==> ShiftEdit(m, flt, val) == flt
  {
    assert ModeLSB != ModeUSB && ModeLSB != ModeDIGU && ModeDIGL != ModeUSB && ModeDIGL != ModeDIGU;
  }

  /** In the sideband modes the two buttons set the two cuts independently:
      the second edit leaves what the first one set. */
  lemma SidebandEditsCommute(m: int, flt: Filter, lowVal: int, highVal: int)
    requires IsLowerSideband(m) || IsUpperSideband(m)
    ensures WidthEdit(m, ShiftEdit(m, flt, highVal), lowVal) == ShiftEdit(m, WidthEdit(m, flt, lowVal), highVal)
  {
    assert !IsWidthShiftMode(m);
  }

  // ---------------------------------------------------------------------
  // Notifying the receivers (filter_menu.c:237-245, 301-309)
  // ---------------------------------------------------------------------

  /** The receivers among the first n whose VFO uses filter slot f, in order. */
  function Notified(vfos: seq<Vfo>, n: int, f: int): seq<int>
    requires 0 <= n <= |vfos|
  {
    if n == 0 then []
    else Notified(vfos, n - 1, f) + (if vfos[n - 1].filter == f then [n - 1] else [])
  }

  /** A receiver is notified exactly when it is one of the first n and uses
      filter slot f, and each of them once, in increasing order. */
  lemma {:induction false} NotifiedExactly(vfos: seq<Vfo>, n: int, f: int)
    requires 0 <= n <= |vfos|
    ensures forall i :: i in Notified(vfos, n, f) <==> 0 <= i < n && vfos[i].filter == f
    ensures forall j, k :: 0 <= j < k < |Notified(vfos, n, f)| ==> Notified(vfos, n, f)[j] < Notified(vfos, n, f)[k]
  {
    if n > 0 {
      NotifiedExactly(vfos, n - 1, f);
      var prev := Notified(vfos, n - 1, f);
      var s := Notified(vfos, n, f);
      assert s == prev + (if vfos[n - 1].filter == f then [n - 1] else []);
      forall j, k | 0 <= j < k < |s| ensures s[j] < s[k] {
        assert s[j] == prev[j];
        if k >= |prev| {
          assert prev[j] in prev;
        }
      }
    }
  }

  /** The notification loop: every receiver using filter slot f, in order. */
  method NotifyReceivers(vfos: seq<Vfo>, receivers: int, f: int) returns (notified: seq<int>)
    requires 0 <= receivers <= |vfos|
    ensures notified == Notified(vfos, receivers, f)
  {
    notified := [];
    var i := 0;
    while i < receivers
      invariant 0 <= i <= receivers
      invariant notified == Notified(vfos, i, f)
    {
      if vfos[i].filter == f {
        notified := notified + [i];
      }
      i := i + 1;
    }
  }

  // ---------------------------------------------------------------------
  // The callbacks, on the table of filters per mode and slot
  // ---------------------------------------------------------------------

  /** var_spin_low_cb: edit filter slot f of the active receiver's mode in
      place, then notify the receivers using slot f. Only that one filter of
      that one mode changes. */
  method VarSpinLow(filters: array2<Filter>, vfos: seq<Vfo>, id: int, receivers: int, f: int, val: int)
    returns (notified: seq<int>)
    requires 0 <= id < |vfos| && 0 <= vfos[id].mode < filters.Length0 && 0 <= f < filters.Length1
    requires 0 <= receivers <= |vfos|
    modifies filters
    ensures filters[vfos[id].mode, f] == WidthEdit(vfos[id].mode, old(filters[vfos[id].mode, f]), val)
    ensures forall m, g :: 0 <= m < filters.Length0 && 0 <= g < filters.Length1 && (m, g) != (vfos[id].mode, f) ==>
      filters[m, g] == old(filters[m, g])
    ensures notified == Notified(vfos, receivers, f)
  {
    var m := vfos[id].mode;
    var filter := filters[m, f];
    if IsWidthShiftMode(m) {
      var shift := Half(filter.low + filter.high);
      filters[m, f] := filter.(low := shift - Half(val), high := shift + Half(val));
    } else if IsLowerSideband(m) {
      filters[m, f] := filter.(high := -val);
    } else if IsUpperSideband(m) {
      filters[m, f] := filter.(low := val);
    }
    notified := NotifyReceivers(vfos, receivers, f);
  }

  /** var_spin_high_cb: the shift edit, likewise in place on one filter. */
  method VarSpinHigh(filters: array2<Filter>, vfos: seq<Vfo>, id: int, receivers: int, f: int, val: int)
    returns (notified: seq<int>)
    requires 0 <= id < |vfos| && 0 <= vfos[id].mode < filters.Length0 && 0 <= f < filters.Length1
    requires 0 <= receivers <= |vfos|
    modifies filters
    ensures filters[vfos[id].mode, f] == ShiftEdit(vfos[id].mode, old(filters[vfos[id].mode, f]), val)
    ensures forall m, g :: 0 <= m < filters.Length0 && 0 <= g < filters.Length1 && (m, g) != (vfos[id].mode, f) ==>
      filters[m, g] == old(filters[m, g])
    ensures notified == Notified(vfos, receivers, f)
  {
    var m := vfos[id].mode;
    var filter := filters[m, f];
    if m == ModeCWL {
      var width := filter.high - filter.low;
      filters[m, f] := filter.(low := -val - Half(width), high := -val + Half(width));
    } else if IsWidthShiftMode(m) {
      var width := filter.high - filter.low;
      filters[m, f] := filter.(low := val - Half(width), high := val + Half(width));
    } else if IsLowerSideband(m) {
      filters[m, f] := filter.(low := -val);
    } else if IsUpperSideband(m) {
      filters[m, f] := filter.(high := val);
    }
    notified := NotifyReceivers(vfos, receivers, f);
  }
}

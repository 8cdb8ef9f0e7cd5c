/** The read-only decisions of band.c over a snapshot of the band table:
    which band a frequency belongs to (band.c:649-711), whether the current
    transmit set-up is legal (band.c:750-797), and the cyclic order in which
    band stepping visits the table (band.c:799-859). */
module BandResolver {
  import opened Modes
  import opened BandCatalog

  // ---------------------------------------------------------------------
  // Frequency resolution
  // ---------------------------------------------------------------------

  /** A band matches f when it is titled and f lies in its closed range. */
  predicate Matches(bd: Band, f: int) {
    bd.Titled() && bd.frequencyMin <= f <= bd.frequencyMax
  }

  /** The first index in [lo, hi) whose band matches f, or -1 when none does. */
  function FirstMatch(bands: seq<Band>, f: int, lo: int, hi: int): (r: int)
    requires 0 <= lo <= hi <= |bands|
    decreases hi - lo
    ensures r == -1 || lo <= r < hi
    ensures r != -1 ==> Matches(bands[r], f)
    ensures forall j :: lo <= j < (if r == -1 then hi else r) ==> !Matches(bands[j], f)
  {
    if lo == hi then -1
    else if Matches(bands[lo], f) then lo
    else FirstMatch(bands, f, lo + 1, hi)
  }

  function Abs(x: int): int {
    if x < 0 then -x else x
  }

  /** The carriers of the standard time-signal stations, in Hz. */
  function WwvCarriers(): seq<int> {
    [2500000, 5000000, 10000000, 15000000, 20000000, 25000000]
  }

  /** f is within 1 kHz of a time-signal carrier. */
  predicate NearWwv(f: int) {
    exists i :: 0 <= i < |WwvCarriers()| && Abs(f - WwvCarriers()[i]) <= 1000
  }

  lemma NearWwvCases(f: int)
    ensures NearWwv(f) <==>
      Abs(f - 2500000) <= 1000 || Abs(f - 5000000) <= 1000 || Abs(f - 10000000) <= 1000 ||
      Abs(f - 15000000) <= 1000 || Abs(f - 20000000) <= 1000 || Abs(f - 25000000) <= 1000
  {
    var c := WwvCarriers();
    if Abs(f - 2500000) <= 1000 { assert Abs(f - c[0]) <= 1000; }
    else if Abs(f - 5000000) <= 1000 { assert Abs(f - c[1]) <= 1000; }
    else if Abs(f - 10000000) <= 1000 { assert Abs(f - c[2]) <= 1000; }
    else if Abs(f - 15000000) <= 1000 { assert Abs(f - c[3]) <= 1000; }
    else if Abs(f - 20000000) <= 1000 { assert Abs(f - c[4]) <= 1000; }
    else if Abs(f - 25000000) <= 1000 { assert Abs(f - c[5]) <= 1000; }
  }

  /** The band chosen when no band matches: WWV within 1 kHz of a time-signal
      carrier, general coverage otherwise. */
  function Fallback(f: int): (r: int)
    ensures r == BandWWV || r == BandGen
    ensures r == BandWWV <==> NearWwv(f)
  {
    NearWwvCases(f);
    var found := BandGen;
    var found := if Abs(f - 2500000) <= 1000 then BandWWV else found;
    var found := if Abs(f - 5000000) <= 1000 then BandWWV else found;
    var found := if Abs(f - 10000000) <= 1000 then BandWWV else found;
    var found := if Abs(f - 15000000) <= 1000 then BandWWV else found;
    var found := if Abs(f - 20000000) <= 1000 then BandWWV else found;
    var found := if Abs(f - 25000000) <= 1000 then BandWWV else found;
    found
  }

  /** The band a frequency belongs to, for a radio covering [radioMin, radioMax].
      Fixed bands are searched only inside the radio's range; a matching
      transverter slot always wins; with no match at all the fallback applies. */
  function BandFromFrequency(bands: seq<Band>, f: int, radioMin: int, radioMax: int): (r: int)
    requires |bands| == TableSize
    // the result is always a valid band index, never "not found"
    ensures 0 <= r < TableSize
    // transverter precedence: the first matching titled slot wins, whatever the fixed bands say
    ensures (exists x :: BandCount <= x < TableSize && Matches(bands[x], f)) ==>
      BandCount <= r && Matches(bands[r], f) &&
      forall x :: BandCount <= x < r ==> !Matches(bands[x], f)
    // otherwise, inside the radio's range, the first matching fixed band wins
    ensures ((forall x :: BandCount <= x < TableSize ==> !Matches(bands[x], f)) &&
             radioMin <= f <= radioMax && (exists x :: 0 <= x < BandCount && Matches(bands[x], f))) ==>
      r < BandCount && Matches(bands[r], f) && forall x :: 0 <= x < r ==> !Matches(bands[x], f)
    // outside the radio's range fixed bands are never chosen by a match
    ensures ((forall x :: BandCount <= x < TableSize ==> !Matches(bands[x], f)) &&
             !(radioMin <= f <= radioMax)) ==> r == Fallback(f)
    // a result that does not contain f is the fallback, taken only when nothing searched matched
    ensures !Matches(bands[r], f) ==> r == Fallback(f)
  {
    var fixed := if radioMin <= f <= radioMax then FirstMatch(bands, f, 0, BandCount) else -1;
    var xvtr := FirstMatch(bands, f, BandCount, TableSize);
    var found := if xvtr != -1 then xvtr else fixed;
    if found < 0 then Fallback(f) else found
  }

  /** A titled transverter slot left at the [0,0] sentinel claims frequency 0,
      even when the radio does not cover 0 Hz. */
  lemma ZeroRangeSlotClaimsZero(bands: seq<Band>, x: int, radioMin: int, radioMax: int)
    requires |bands| == TableSize && BandCount <= x < TableSize
    requires bands[x].Titled() && bands[x].frequencyMin == 0 && bands[x].frequencyMax == 0
    requires forall y :: BandCount <= y < x ==> !Matches(bands[y], 0)
    ensures BandFromFrequency(bands, 0, radioMin, radioMax) == x
  {
    assert Matches(bands[x], 0);
  }

  /** Worked cases of the fallback: the 1 kHz window around a time-signal
      carrier is closed at both ends, and one hertz beyond it is general coverage. */
  lemma FallbackCases()
    ensures Fallback(10000000) == BandWWV
    ensures Fallback(2501000) == BandWWV && Fallback(2499000) == BandWWV
    ensures Fallback(2501001) == BandGen && Fallback(2498999) == BandGen
    ensures Fallback(10001500) == BandGen && Fallback(0) == BandGen
  {
  }

  // ---------------------------------------------------------------------
  // Transmit legality
  // ---------------------------------------------------------------------

  /** The occupied spectrum of the transmit signal: a single point for CW,
      the carrier shifted by the transmit filter edges otherwise. */
  function TxSpan(mode: int, txFreq: int, filterLow: int, filterHigh: int): (span: (int, int))
    ensures IsCw(mode) ==> span.0 == txFreq == span.1
    ensures !IsCw(mode) ==> span.0 - txFreq == filterLow && span.1 - txFreq == filterHigh
  {
    if IsCw(mode) then (txFreq, txFreq) else (txFreq + filterLow, txFreq + filterHigh)
  }

  /** Whether transmitting is allowed with the transmit VFO on band txBand. */
  function TransmitAllowed(canTransmit: bool, outOfBandAllowed: bool, txBand: int, txMode: int,
                           txFreq: int, filterLow: int, filterHigh: int, bands: seq<Band>): (ok: bool)
    requires |bands| == TableSize
    requires canTransmit && !outOfBandAllowed ==> 0 <= txBand < TableSize
    // no transmitter: never
    ensures !canTransmit ==> !ok
    // out-of-band transmit enabled: always (with a transmitter)
    ensures canTransmit && outOfBandAllowed ==> ok
    // general coverage, WWV and air band: never, whatever the frequency
    ensures canTransmit && !outOfBandAllowed && txBand in {BandGen, BandWWV, BandAIR} ==> !ok
    // otherwise: exactly when both edges of the span are inside the band
    ensures canTransmit && !outOfBandAllowed && txBand !in {BandGen, BandWWV, BandAIR} ==>
      (ok <==> bands[txBand].frequencyMin <= TxSpan(txMode, txFreq, filterLow, filterHigh).0 &&
               TxSpan(txMode, txFreq, filterLow, filterHigh).1 <= bands[txBand].frequencyMax)
  {
    if !canTransmit then false
    else if outOfBandAllowed then true
    else if txBand == BandGen || txBand == BandWWV || txBand == BandAIR then false
    else
      var band := bands[txBand];
      var (flow, fhigh) := TxSpan(txMode, txFreq, filterLow, filterHigh);
      flow >= band.frequencyMin && fhigh <= band.frequencyMax
  }

  /** x lies inside the band's closed range. */
  predicate InBand(bd: Band, x: int) {
    bd.frequencyMin <= x <= bd.frequencyMax
  }

  /** When the band check decides, a legal transmission keeps every frequency
      of its span inside the band; and a non-empty span that fits is legal. */
  lemma TransmitSpanInside(txBand: int, txMode: int, txFreq: int,
                           filterLow: int, filterHigh: int, bands: seq<Band>)
    requires |bands| == TableSize && 0 <= txBand < TableSize
    requires txBand !in {BandGen, BandWWV, BandAIR}
    ensures var (lo, hi) := TxSpan(txMode, txFreq, filterLow, filterHigh);
      TransmitAllowed(true, false, txBand, txMode, txFreq, filterLow, filterHigh, bands) ==>
      forall x :: lo <= x <= hi ==> InBand(bands[txBand], x)
    ensures var (lo, hi) := TxSpan(txMode, txFreq, filterLow, filterHigh);
      (lo <= hi && forall x :: lo <= x <= hi ==> InBand(bands[txBand], x)) ==>
      TransmitAllowed(true, false, txBand, txMode, txFreq, filterLow, filterHigh, bands)
  {
    var (lo, hi) := TxSpan(txMode, txFreq, filterLow, filterHigh);
    if lo <= hi && forall x :: lo <= x <= hi ==> InBand(bands[txBand], x) {
      assert InBand(bands[txBand], lo) && InBand(bands[txBand], hi);
    }
  }

  /** In CW the filter is irrelevant: the carrier alone must be in the band. */
  lemma TransmitCwIgnoresFilter(txBand: int, txMode: int, txFreq: int,
                                filterLow: int, filterHigh: int, bands: seq<Band>)
    requires |bands| == TableSize && 0 <= txBand < TableSize && IsCw(txMode)
    requires txBand !in {BandGen, BandWWV, BandAIR}
    ensures TransmitAllowed(true, false, txBand, txMode, txFreq, filterLow, filterHigh, bands) <==>
      bands[txBand].frequencyMin <= txFreq <= bands[txBand].frequencyMax
  {
  }

  // ---------------------------------------------------------------------
  // Cyclic stepping through the table
  // ---------------------------------------------------------------------

  /** One step up or down with wrap-around at the table ends. */
  function Next(b: int, up: bool): (n: int)
    requires 0 <= b < TableSize
    ensures 0 <= n < TableSize
  {
    if up then (if b + 1 >= TableSize then 0 else b + 1)
    else (if b - 1 < 0 then TableSize - 1 else b - 1)
  }

  /** The index reached after k steps. */
  function Walk(b: int, up: bool, k: nat): (w: int)
    requires 0 <= b < TableSize
    ensures 0 <= w < TableSize
  {
    if k == 0 then b else Next(Walk(b, up, k - 1), up)
  }

  /** k steps up add k modulo the table size; k steps down subtract it. */
  lemma {:induction false} WalkMod(b: int, up: bool, k: nat)
    requires 0 <= b < TableSize
    ensures Walk(b, up, k) == if up then (b + k) % TableSize else (b - k) % TableSize
  {
    if k == 0 {
      ModUnique(b, 0, b);
    } else {
      WalkMod(b, up, k - 1);
      var x := if up then b + k - 1 else b - (k - 1);
      var d := x / TableSize;
      assert x == d * TableSize + x % TableSize;
      if up {
        if x % TableSize + 1 == TableSize {
          ModUnique(x + 1, d + 1, 0);
        } else {
          ModUnique(x + 1, d, x % TableSize + 1);
        }
      } else {
        if x % TableSize == 0 {
          ModUnique(x - 1, d - 1, TableSize - 1);
        } else {
          ModUnique(x - 1, d, x % TableSize - 1);
        }
      }
    }
  }

  /** The titled indices met during the first k steps, in the order met. */
  function TitledWalk(bands: seq<Band>, b: int, up: bool, k: nat): (s: seq<int>)
    requires |bands| == TableSize && 0 <= b < TableSize
    ensures |s| <= k
  {
    if k == 0 then []
    else
      var w := Walk(b, up, k);
      TitledWalk(bands, b, up, k - 1) + (if bands[w].Titled() then [w] else [])
  }

  /** The remainder is determined by any decomposition x == q * TableSize + r. */
  lemma ModUnique(x: int, q: int, r: int)
    requires 0 <= r < TableSize && x == q * TableSize + r
    ensures x % TableSize == r
  {
  }

  /** Adding whole cycles does not change the remainder. */
  lemma ModAddCycles(x: int, q: int)
    ensures (x + q * TableSize) % TableSize == x % TableSize
  {
    var d := x / TableSize;
    assert x == d * TableSize + x % TableSize;
    ModUnique(x + q * TableSize, d + q, x % TableSize);
  }

  /** Steps compose: m steps then n steps is m + n steps. */
  lemma {:induction false} WalkAdd(b: int, up: bool, m: nat, n: nat)
    requires 0 <= b < TableSize
    ensures Walk(Walk(b, up, m), up, n) == Walk(b, up, m + n)
  {
    if n > 0 {
      WalkAdd(b, up, m, n - 1);
    }
  }

  /** A full cycle of steps comes back to where it started. */
  lemma WalkPeriod(b: int, up: bool, k: nat)
    requires 0 <= b < TableSize
    ensures Walk(b, up, TableSize) == b
    ensures Walk(b, up, k + TableSize) == Walk(b, up, k)
  {
    WalkMod(b, up, TableSize);
    if up {
      ModUnique(b + TableSize, 1, b);
    } else {
      ModUnique(b - TableSize, -1, b);
    }
    WalkAdd(b, up, TableSize, k);
  }

  /** Within one cycle every index is reached, at a step count in 1..TableSize. */
  lemma WalkCovers(b: int, up: bool, j: int) returns (k: nat)
    requires 0 <= b < TableSize && 0 <= j < TableSize
    ensures 1 <= k <= TableSize && Walk(b, up, k) == j
  {
    var delta := if up then j - b else b - j;
    var d := delta / TableSize;
    var r := delta % TableSize;
    assert delta == d * TableSize + r;
    ModUnique(j, 0, j);
    if r == 0 {
      assert -TableSize < delta < TableSize;
      assert d == 0;
      k := TableSize;
      WalkPeriod(b, up, 0);
    } else if up {
      k := r;
      WalkMod(b, up, k);
      assert b + k == j + (-d) * TableSize;
      ModAddCycles(j, -d);
    } else {
      k := r;
      WalkMod(b, up, k);
      assert b - k == j + d * TableSize;
      ModAddCycles(j, d);
    }
  }

  /** Two integers less than a cycle apart have different remainders. */
  lemma ModDistinct(x1: int, x2: int)
    requires 0 < x2 - x1 < TableSize
    ensures x1 % TableSize != x2 % TableSize
  {
    var q := x1 / TableSize;
    var r := x1 % TableSize;
    assert x1 == q * TableSize + r;
    if r + (x2 - x1) < TableSize {
      ModUnique(x2, q, r + (x2 - x1));
    } else {
      ModUnique(x2, q + 1, r + (x2 - x1) - TableSize);
    }
  }

  /** Within one cycle no index is reached twice. */
  lemma WalkDistinct(b: int, up: bool, k1: nat, k2: nat)
    requires 0 <= b < TableSize && 1 <= k1 < k2 <= TableSize
    ensures Walk(b, up, k1) != Walk(b, up, k2)
  {
    WalkMod(b, up, k1);
    WalkMod(b, up, k2);
    if up {
      ModDistinct(b + k1, b + k2);
    } else {
      ModDistinct(b - k2, b - k1);
    }
  }

  /** Membership in the titled walk: a titled index reached at step k <= n is listed. */
  lemma {:induction false} TitledWalkHas(bands: seq<Band>, b: int, up: bool, n: nat, k: nat)
    requires |bands| == TableSize && 0 <= b < TableSize
    requires 1 <= k <= n && bands[Walk(b, up, k)].Titled()
    ensures Walk(b, up, k) in TitledWalk(bands, b, up, n)
  {
    if k < n {
      TitledWalkHas(bands, b, up, n - 1, k);
    }
  }

  /** An index first reached after step n is not yet listed after n steps. */
  lemma {:induction false} TitledWalkNotIn(bands: seq<Band>, b: int, up: bool, n: nat, k: nat)
    requires |bands| == TableSize && 0 <= b < TableSize
    requires n < k <= TableSize
    ensures Walk(b, up, k) !in TitledWalk(bands, b, up, n)
  {
    if n > 0 {
      TitledWalkNotIn(bands, b, up, n - 1, k);
      WalkDistinct(b, up, n, k);
    }
  }

  /** Over one full cycle the titled walk lists every titled band exactly once. */
  lemma {:induction false} TitledWalkCycle(bands: seq<Band>, b: int, up: bool, n: nat)
    requires |bands| == TableSize && 0 <= b < TableSize && n <= TableSize
    ensures n == TableSize ==>
      forall j :: 0 <= j < TableSize && bands[j].Titled() ==> j in TitledWalk(bands, b, up, n)
    ensures forall i1, i2 :: 0 <= i1 < i2 < |TitledWalk(bands, b, up, n)| ==>
      TitledWalk(bands, b, up, n)[i1] != TitledWalk(bands, b, up, n)[i2]
  {
    if n == TableSize {
      forall j | 0 <= j < TableSize && bands[j].Titled() ensures j in TitledWalk(bands, b, up, n) {
        var k := WalkCovers(b, up, j);
        TitledWalkHas(bands, b, up, n, k);
      }
    }
    if n > 0 {
      TitledWalkCycle(bands, b, up, n - 1);
      TitledWalkNotIn(bands, b, up, n - 1, n);
      var prev := TitledWalk(bands, b, up, n - 1);
      var s := TitledWalk(bands, b, up, n);
      forall i1, i2 | 0 <= i1 < i2 < |s| ensures s[i1] != s[i2] {
        assert s[i1] == prev[i1];
        if i2 >= |prev| {
          assert s[i2] == Walk(b, up, n);
        } else {
          assert s[i2] == prev[i2];
        }
      }
    }
  }

  /** The first titled band the walk from a titled band reaches is its titled neighbour. */
  lemma FirstTitledIsNext(bands: seq<Band>, b: int, up: bool, k: nat)
    requires |bands| == TableSize && 0 <= b < TableSize && bands[b].Titled()
    requires 1 <= k <= TableSize && TitledWalk(bands, b, up, k - 1) == [] && bands[Walk(b, up, k)].Titled()
    ensures NextTitled(bands, b, up) == Walk(b, up, k)
  {
    forall j | 1 <= j < k ensures !bands[Walk(b, up, j)].Titled() {
      if bands[Walk(b, up, j)].Titled() {
        TitledWalkHas(bands, b, up, k - 1, j);
      }
    }
    GapIs(bands, b, up, 1, k);
  }

  /** Only titled bands are listed in the titled walk. */
  lemma {:induction false} TitledWalkTitled(bands: seq<Band>, b: int, up: bool, n: nat)
    requires |bands| == TableSize && 0 <= b < TableSize
    ensures forall i :: 0 <= i < |TitledWalk(bands, b, up, n)| ==> 0 <= TitledWalk(bands, b, up, n)[i] < TableSize
    ensures forall i :: 0 <= i < |TitledWalk(bands, b, up, n)| ==> bands[TitledWalk(bands, b, up, n)[i]].Titled()
  {
    if n > 0 {
      TitledWalkTitled(bands, b, up, n - 1);
    }
  }

  /** The smallest step count d in [k, TableSize] that reaches a titled band;
      from a titled start, the full cycle at the latest comes back to it. */
  function Gap(bands: seq<Band>, b: int, up: bool, k: nat): (d: nat)
    requires |bands| == TableSize && 0 <= b < TableSize && bands[b].Titled()
    requires 1 <= k <= TableSize
    decreases TableSize - k
    ensures k <= d <= TableSize
    ensures bands[Walk(b, up, d)].Titled()
  {
    if k == TableSize then WalkPeriod(b, up, 0); k
    else if bands[Walk(b, up, k)].Titled() then k
    else Gap(bands, b, up, k + 1)
  }

  /** No step strictly between k and the gap reaches a titled band. */
  lemma {:induction false} GapSkips(bands: seq<Band>, b: int, up: bool, k: nat, j: nat)
    requires |bands| == TableSize && 0 <= b < TableSize && bands[b].Titled()
    requires 1 <= k <= TableSize && k <= j < Gap(bands, b, up, k)
    decreases TableSize - k
    ensures !bands[Walk(b, up, j)].Titled()
  {
    if j > k {
      GapSkips(bands, b, up, k + 1, j);
    }
  }

  /** The band one step of band stepping lands on when no band is vetoed:
      the next titled band in the stepping direction. */
  function NextTitled(bands: seq<Band>, b: int, up: bool): (n: int)
    requires |bands| == TableSize && 0 <= b < TableSize && bands[b].Titled()
    ensures 0 <= n < TableSize && bands[n].Titled()
  {
    Walk(b, up, Gap(bands, b, up, 1))
  }

  /** The single steps of one band step meet exactly one titled band: the one landed on. */
  lemma NextTitledMeetsOne(bands: seq<Band>, b: int, up: bool)
    requires |bands| == TableSize && 0 <= b < TableSize && bands[b].Titled()
    ensures TitledWalk(bands, b, up, Gap(bands, b, up, 1)) == [NextTitled(bands, b, up)]
  {
    var g := Gap(bands, b, up, 1);
    forall j | 1 <= j <= g - 1 ensures !bands[Walk(b, up, j)].Titled() {
      GapSkips(bands, b, up, 1, j);
    }
    NoTitledBefore(bands, b, up, g - 1);
  }

  lemma {:induction false} NoTitledBefore(bands: seq<Band>, b: int, up: bool, k: nat)
    requires |bands| == TableSize && 0 <= b < TableSize
    requires forall j :: 1 <= j <= k ==> !bands[Walk(b, up, j)].Titled()
    ensures TitledWalk(bands, b, up, k) == []
  {
    if k > 0 {
      NoTitledBefore(bands, b, up, k - 1);
    }
  }

  /** The gap is the first step count from k that reaches a titled band. */
  lemma {:induction false} GapIs(bands: seq<Band>, b: int, up: bool, k: nat, g: nat)
    requires |bands| == TableSize && 0 <= b < TableSize && bands[b].Titled()
    requires 1 <= k <= g <= TableSize && bands[Walk(b, up, g)].Titled()
    requires forall j :: k <= j < g ==> !bands[Walk(b, up, j)].Titled()
    decreases g - k
    ensures Gap(bands, b, up, k) == g
  {
    if k < g {
      GapIs(bands, b, up, k + 1, g);
    }
  }

  /** A step up undoes a step down and vice versa. */
  lemma NextBack(x: int, up: bool)
    requires 0 <= x < TableSize
    ensures Next(Next(x, up), !up) == x
  {
  }

  /** Walking back i steps from k steps out stands k - i steps out. */
  lemma {:induction false} WalkBack(b: int, up: bool, k: nat, i: nat)
    requires 0 <= b < TableSize && i <= k
    ensures Walk(Walk(b, up, k), !up, i) == Walk(b, up, k - i)
  {
    if i > 0 {
      WalkBack(b, up, k, i - 1);
      NextBack(Walk(b, up, k - i), up);
    }
  }

  /** Band stepping down undoes band stepping up, and the reverse. */
  lemma StepBack(bands: seq<Band>, b: int, up: bool)
    requires |bands| == TableSize && 0 <= b < TableSize && bands[b].Titled()
    ensures NextTitled(bands, NextTitled(bands, b, up), !up) == b
  {
    var g := Gap(bands, b, up, 1);
    var n, down := Walk(b, up, g), !up;
    forall j | 1 <= j < g ensures !bands[Walk(n, down, j)].Titled() {
      WalkBack(b, up, g, j);
      GapSkips(bands, b, up, 1, g - j);
    }
    WalkBack(b, up, g, g);
    GapIs(bands, n, down, 1, g);
  }

  /** The titled walk over m + n steps is the walk over m steps followed by
      the walk over n more steps from where the first m ended. */
  lemma {:induction false} TitledWalkAdd(bands: seq<Band>, b: int, up: bool, m: nat, n: nat)
    requires |bands| == TableSize && 0 <= b < TableSize
    ensures TitledWalk(bands, b, up, m + n) ==
      TitledWalk(bands, b, up, m) + TitledWalk(bands, Walk(b, up, m), up, n)
  {
    if n > 0 {
      TitledWalkAdd(bands, b, up, m, n - 1);
      WalkAdd(b, up, m, n);
    }
  }

  /** k band steps from b in one direction, when no band is vetoed. */
  function StepTimes(bands: seq<Band>, b: int, up: bool, k: nat): (n: int)
    requires |bands| == TableSize && 0 <= b < TableSize && bands[b].Titled()
    ensures 0 <= n < TableSize && bands[n].Titled()
  {
    if k == 0 then b else NextTitled(bands, StepTimes(bands, b, up, k - 1), up)
  }

  /** The number of single steps those k band steps take; each takes at least one. */
  function StepDistance(bands: seq<Band>, b: int, up: bool, k: nat): (d: nat)
    requires |bands| == TableSize && 0 <= b < TableSize && bands[b].Titled()
    ensures d >= k
  {
    if k == 0 then 0
    else StepDistance(bands, b, up, k - 1) + Gap(bands, StepTimes(bands, b, up, k - 1), up, 1)
  }

  /** One more band step from a titled band reached after d single steps
      lands on its titled neighbour and meets exactly one more titled band. */
  lemma WalkOneMore(bands: seq<Band>, b: int, up: bool, d: nat, x: int, d': nat, x': int)
    requires |bands| == TableSize && 0 <= b < TableSize
    requires 0 <= x < TableSize && bands[x].Titled() && x == Walk(b, up, d)
    requires d' == d + Gap(bands, x, up, 1) && x' == NextTitled(bands, x, up)
    ensures Walk(b, up, d') == x'
    ensures |TitledWalk(bands, b, up, d')| == |TitledWalk(bands, b, up, d)| + 1
  {
    var g := Gap(bands, x, up, 1);
    WalkAdd(b, up, d, g);
    TitledWalkAdd(bands, b, up, d, g);
    NextTitledMeetsOne(bands, x, up);
  }

  /** k band steps stand StepDistance single steps out, and meet exactly k
      titled bands on the way. */
  lemma {:induction false} StepTimesWalk(bands: seq<Band>, b: int, up: bool, k: nat)
    requires |bands| == TableSize && 0 <= b < TableSize && bands[b].Titled()
    ensures StepTimes(bands, b, up, k) == Walk(b, up, StepDistance(bands, b, up, k))
    ensures |TitledWalk(bands, b, up, StepDistance(bands, b, up, k))| == k
  {
    if k > 0 {
      StepTimesWalk(bands, b, up, k - 1);
      WalkOneMore(bands, b, up, StepDistance(bands, b, up, k - 1), StepTimes(bands, b, up, k - 1),
                  StepDistance(bands, b, up, k), StepTimes(bands, b, up, k));
    }
  }

  /** The number of titled bands in the table. */
  function TitledCount(bands: seq<Band>): nat {
    |set j | 0 <= j < |bands| && bands[j].Titled()|
  }

  /** A sequence without repeats has as many distinct elements as it is long. */
  lemma {:induction false} DistinctCard(s: seq<int>)
    requires forall i1, i2 :: 0 <= i1 < i2 < |s| ==> s[i1] != s[i2]
    ensures |set x | x in s| == |s|
  {
    if |s| > 0 {
      var p := s[..|s| - 1];
      DistinctCard(p);
      assert (set x | x in s) == (set x | x in p) + {s[|s| - 1]};
      assert s[|s| - 1] !in p;
    }
  }

  /** One full cycle of single steps meets every titled band once, so its
      titled walk is as long as there are titled bands. */
  lemma FullWalkLength(bands: seq<Band>, b: int, up: bool)
    requires |bands| == TableSize && 0 <= b < TableSize
    ensures |TitledWalk(bands, b, up, TableSize)| == TitledCount(bands)
  {
    var s := TitledWalk(bands, b, up, TableSize);
    TitledWalkCycle(bands, b, up, TableSize);
    TitledWalkTitled(bands, b, up, TableSize);
    assert (set x | x in s) == (set j | 0 <= j < |bands| && bands[j].Titled());
    DistinctCard(s);
  }

  /** From a titled start, a number of single steps that meets as many
      titled bands as the table holds and ends on a titled band is exactly
      one full cycle. */
  lemma CycleLengthForces(bands: seq<Band>, b: int, up: bool, d: nat)
    requires |bands| == TableSize && 0 <= b < TableSize && bands[b].Titled()
    requires |TitledWalk(bands, b, up, d)| == TitledCount(bands) && bands[Walk(b, up, d)].Titled()
    ensures d == TableSize
  {
    FullWalkLength(bands, b, up);
    WalkPeriod(b, up, 0);
    if d < TableSize {
      var x := Walk(b, up, d);
      TitledWalkAdd(bands, b, up, d, TableSize - d);
      WalkAdd(b, up, d, TableSize - d);
      TitledWalkHas(bands, x, up, TableSize - d, TableSize - d);
      assert false;
    } else if d > TableSize {
      var m := d - TableSize;
      TitledWalkAdd(bands, b, up, TableSize, m);
      WalkAdd(b, up, TableSize, m);
      assert false;
    }
  }

  /** A number of single steps that meets fewer titled bands than the table
      holds stays within one cycle. */
  lemma ShortWalkInCycle(bands: seq<Band>, b: int, up: bool, d: nat)
    requires |bands| == TableSize && 0 <= b < TableSize
    requires |TitledWalk(bands, b, up, d)| < TitledCount(bands)
    ensures d < TableSize
  {
    FullWalkLength(bands, b, up);
    if d >= TableSize {
      TitledWalkAdd(bands, b, up, TableSize, d - TableSize);
      assert false;
    }
  }

  /** Stepping through all titled bands in one direction, with no band vetoed,
      comes back to a titled start band, and no smaller positive number of band
      steps does. */
  lemma StepCycle(bands: seq<Band>, b: int, up: bool)
    requires |bands| == TableSize && 0 <= b < TableSize && bands[b].Titled()
    ensures TitledCount(bands) >= 1
    ensures StepTimes(bands, b, up, TitledCount(bands)) == b
    ensures forall k :: 0 < k < TitledCount(bands) ==> StepTimes(bands, b, up, k) != b
  {
    var n := TitledCount(bands);
    assert b in set j | 0 <= j < |bands| && bands[j].Titled();
    StepTimesWalk(bands, b, up, n);
    CycleLengthForces(bands, b, up, StepDistance(bands, b, up, n));
    WalkPeriod(b, up, 0);
    forall k | 0 < k < n ensures StepTimes(bands, b, up, k) != b {
      StepTimesWalk(bands, b, up, k);
      var d := StepDistance(bands, b, up, k);
      ShortWalkInCycle(bands, b, up, d);
      WalkDistinct(b, up, d, TableSize);
    }
  }
}

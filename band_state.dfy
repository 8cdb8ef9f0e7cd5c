/** The live band table of band.c: the band records, the bandstack entry
    arrays they point at, the region and the active 60 m channel table, with
    the operations that read and change them in place. */
module BandState {
  import opened Wrappers
  import opened BandCatalog
  import opened BandResolver
  import opened BandPersistence

  // ---------------------------------------------------------------------
  // Region switch (band.c:494-538), as a function on the band table
  // ---------------------------------------------------------------------

  /** The band table after selecting region r: the 60 m bandstack is bound to
      the region's catalog with its first entry current; an unknown region
      leaves the table alone. */
  function Rebind60(bands: seq<Band>, r: int): (nb: seq<Band>)
    requires |bands| == TableSize
    ensures |nb| == TableSize
    ensures RegionPlanOf(r).None? ==> nb == bands
    ensures RegionPlanOf(r).Some? ==>
      nb[Band60].stack.table == RegionPlanOf(r).value.table && nb[Band60].stack.current == 0
  {
    match RegionPlanOf(r)
    case None => bands
    case Some(plan) => bands[Band60 := bands[Band60].(stack := Stack(plan.entries, 0, plan.table))]
  }

  /** Selecting a region keeps the table well-formed and changes nothing but the 60 m bandstack. */
  lemma Rebind60WellFormed(bands: seq<Band>, cats: seq<seq<Entry>>, r: int)
    requires WellFormed(bands, cats)
    ensures WellFormed(Rebind60(bands, r), cats)
    ensures forall b :: 0 <= b < TableSize && b != Band60 ==> Rebind60(bands, r)[b] == bands[b]
    ensures Rebind60(bands, r)[Band60] == bands[Band60].(stack := Rebind60(bands, r)[Band60].stack)
    ensures RegionPlanOf(r).Some? ==> Rebind60(bands, r)[Band60].stack.current == 0
  {
    var nb := Rebind60(bands, r);
    forall b | 0 <= b < TableSize ensures StackBound(b, nb[b].stack) {
      assert StackBound(b, bands[b].stack);
    }
  }

  /** Selecting the same region twice is the same as selecting it once. */
  lemma Rebind60Idempotent(bands: seq<Band>, r: int)
    requires |bands| == TableSize
    ensures Rebind60(Rebind60(bands, r), r) == Rebind60(bands, r)
  {
  }

  /** Of two successive known regions only the second one counts. */
  lemma Rebind60LastWins(bands: seq<Band>, r1: int, r2: int)
    requires |bands| == TableSize && RegionPlanOf(r2).Some?
    ensures Rebind60(Rebind60(bands, r1), r2) == Rebind60(bands, r2)
  {
  }

  // ---------------------------------------------------------------------
  // The save loop's writes (band.c:540-580)
  // ---------------------------------------------------------------------

  /** The band-level writes of the save loop for a titled band b: the
      persisted integer fields of bd, and nothing else. */
  method WriteBandFields(ints0: map<Key, int>, b: int, bd: Band) returns (ints: map<Key, int>)
    ensures forall k :: (Lookup(ints, k) ==
      Override(if k.BandInt? && k.band == b && Persisted(b, k.field) then Some(IntFieldOf(bd, k.field)) else None,
               Lookup(ints0, k)))
  {
    ints := ints0;
    if b >= BandCount {
      ints := ints[BandInt(b, FrequencyLO) := bd.frequencyLO];
      ints := ints[BandInt(b, ErrorLO) := bd.errorLO];
      ints := ints[BandInt(b, Gain) := bd.gain];
    }
    if b > LastFixedRangeBand {
      ints := ints[BandInt(b, FrequencyMin) := bd.frequencyMin];
      ints := ints[BandInt(b, FrequencyMax) := bd.frequencyMax];
    }
    ints := ints[BandInt(b, DisablePA) := bd.disablePA];
    ints := ints[BandInt(b, Current) := bd.stack.current];
    ints := ints[BandInt(b, AlexRxAntenna) := bd.alexRxAntenna];
    ints := ints[BandInt(b, AlexTxAntenna) := bd.alexTxAntenna];
    ints := ints[BandInt(b, AlexAttenuation) := bd.alexAttenuation];
    ints := ints[BandInt(b, OCrx) := bd.ocRx];
    ints := ints[BandInt(b, OCtx) := bd.ocTx];
    forall k ensures Lookup(ints, k) ==
      Override(if k.BandInt? && k.band == b && Persisted(b, k.field) then Some(IntFieldOf(bd, k.field)) else None,
               Lookup(ints0, k))
    {
      if k.BandInt? && k.band == b {
        match k.field
        case FrequencyLO =>
        case ErrorLO =>
        case Gain =>
        case FrequencyMin =>
        case FrequencyMax =>
        case DisablePA =>
        case Current =>
        case AlexRxAntenna =>
        case AlexTxAntenna =>
        case AlexAttenuation =>
        case OCrx =>
        case OCtx =>
      }
    }
  }

  /** The writes for bandstack slot s of band b: its eight fields, and nothing else. */
  method WriteEntry(ints0: map<Key, int>, b: int, s: int, e: Entry) returns (ints: map<Key, int>)
    ensures forall k :: (Lookup(ints, k) ==
      Override(if k.StackInt? && k.band == b && k.slot == s then Some(EntryFieldOf(e, k.entryField)) else None,
               Lookup(ints0, k)))
  {
    ints := ints0[StackInt(b, s, Frequency) := e.frequency];
    ints := ints[StackInt(b, s, Mode) := e.mode];
    ints := ints[StackInt(b, s, Filter) := e.filter];
    ints := ints[StackInt(b, s, Ctun) := e.ctun];
    ints := ints[StackInt(b, s, CtunFrequency) := e.ctunFrequency];
    ints := ints[StackInt(b, s, Deviation) := e.deviation];
    ints := ints[StackInt(b, s, CtcssEnabled) := e.ctcssEnabled];
    ints := ints[StackInt(b, s, Ctcss) := e.ctcss];
    forall k ensures Lookup(ints, k) ==
      Override(if k.StackInt? && k.band == b && k.slot == s then Some(EntryFieldOf(e, k.entryField)) else None,
               Lookup(ints0, k))
    {
      if k.StackInt? && k.band == b && k.slot == s {
        match k.entryField
        case Frequency =>
        case Mode =>
        case Filter =>
        case Ctun =>
        case CtunFrequency =>
        case Deviation =>
        case CtcssEnabled =>
        case Ctcss =>
      }
    }
  }

  /** The store after the save loop has written bands 0 .. b-1. */
  ghost predicate SavedBelow(q: Props, p: Props, bands: seq<Band>, cats: seq<seq<Entry>>, b: int) {
    (forall k :: Lookup(q.ints, k) ==
      Override(if k.band < b then SavedInt(bands, cats, k) else None, Lookup(p.ints, k))) &&
    (forall k :: Lookup(q.reals, k) ==
      Override(if k.band < b then SavedReal(bands, k) else None, Lookup(p.reals, k))) &&
    (forall k :: Lookup(q.strings, k) ==
      Override(if k.band < b then SavedString(bands, k) else None, Lookup(p.strings, k)))
  }

  /** What SaveBand promises: q is q0 with band b's writes. */
  ghost predicate BandWritten(q: Props, q0: Props, b: int, bd: Band, cat: seq<Entry>)
    requires 0 <= bd.stack.entries <= |cat|
  {
    (forall k :: Lookup(q.ints, k) ==
      Override(BandSavedInt(b, bd, cat, bd.stack.entries, k), Lookup(q0.ints, k))) &&
    (forall k :: Lookup(q.reals, k) ==
      Override(if bd.Titled() && k == BandPaCalibration(b) then Some(bd.paCalibration) else None, Lookup(q0.reals, k))) &&
    (forall k :: Lookup(q.strings, k) ==
      Override(if bd.Titled() && k == BandTitle(b) then Some(bd.title) else None, Lookup(q0.strings, k)))
  }

  /** One more band written keeps the save loop's invariant. */
  lemma SaveStep(q: Props, q': Props, p: Props, bands: seq<Band>, cats: seq<seq<Entry>>, b: int)
    requires 0 <= b < |bands| && bands[b].stack.table < |cats|
    requires 0 <= bands[b].stack.entries <= |cats[bands[b].stack.table]|
    requires SavedBelow(q, p, bands, cats, b)
    requires BandWritten(q', q, b, bands[b], cats[bands[b].stack.table])
    ensures SavedBelow(q', p, bands, cats, b + 1)
  {
    forall k: Key ensures Lookup(q'.ints, k) ==
      Override(if k.band < b + 1 then SavedInt(bands, cats, k) else None, Lookup(p.ints, k))
    {
      if k.band == b {
        assert SavedInt(bands, cats, k) ==
          BandSavedInt(b, bands[b], cats[bands[b].stack.table], bands[b].stack.entries, k);
      }
    }
  }

  /** Once every band is written, the store is the saved store. */
  lemma SavedBelowAll(q: Props, p: Props, bands: seq<Band>, cats: seq<seq<Entry>>)
    requires |bands| == TableSize
    requires SavedBelow(q, p, bands, cats, TableSize)
    ensures SavedFrom(q, p, bands, cats)
  {
    forall k: Key ensures Lookup(q.ints, k) == Override(SavedInt(bands, cats, k), Lookup(p.ints, k)) {
      assert k.band >= TableSize ==> SavedInt(bands, cats, k) == None;
    }
  }

  /** One iteration of the save loop for band b, with record bd and bandstack
      entries cat: skipped for an untitled band. */
  method SaveBand(q0: Props, b: int, bd: Band, cat: seq<Entry>) returns (q: Props)
    requires 0 <= bd.stack.entries <= |cat|
    ensures BandWritten(q, q0, b, bd, cat)
  {
    if |bd.title| == 0 {
      return q0;
    }
    var ints := WriteBandFields(q0.ints, b, bd);
    var strings := q0.strings[BandTitle(b) := bd.title];
    var reals := q0.reals[BandPaCalibration(b) := bd.paCalibration];
    var s := 0;
    while s < bd.stack.entries
      invariant 0 <= s <= bd.stack.entries
      invariant forall k :: (Lookup(ints, k) == Override(BandSavedInt(b, bd, cat, s, k), Lookup(q0.ints, k)))
    {
      ints := WriteEntry(ints, b, s, cat[s]);
      s := s + 1;
    }
    q := Props(ints, reals, strings);
  }

  // ---------------------------------------------------------------------
  // The band table
  // ---------------------------------------------------------------------

  class BandRegistry {
    /** The band table: the fixed bands followed by the transverter slots. */
    var bands: array<Band>
    /** The bandstack entry arrays, addressed by catalog id. */
    var catalogs: array<seq<Entry>>
    /** The region last selected. */
    var region: int
    /** The active 60 m channel table and its length. */
    var channelEntries: int
    var channels: seq<Channel>

    /** Sizes, catalog lengths and each bandstack bound to its own catalog;
        the channel count matches the channel table. */
    predicate Valid()
      reads this, bands, catalogs
    {
      bands.Length == TableSize && catalogs.Length == CatalogCount &&
      WellFormed(bands[..], catalogs[..]) && channelEntries == |channels|
    }

    /** The static tables of band.c. The region is selected elsewhere; until a
        region is selected no channel table is active. */
    constructor (region0: int)
      ensures Valid()
      ensures bands[..] == DefaultBands() && catalogs[..] == DefaultCatalogs()
      ensures region == region0 && channelEntries == 0 && channels == []
    {
      DefaultWellFormed();
      var bs := DefaultBands();
      var cs := DefaultCatalogs();
      var bandArray := new Band[TableSize](i requires 0 <= i < TableSize => bs[i]);
      var catalogArray := new seq<Entry>[CatalogCount](i requires 0 <= i < CatalogCount => cs[i]);
      assert bandArray[..] == bs;
      assert catalogArray[..] == cs;
      bands, catalogs := bandArray, catalogArray;
      region := region0;
      channelEntries := 0;
      channels := [];
    }

    /** band_get_band: the record of band b, bound to its own catalog. */
    function BandAt(b: int): (bd: Band)
      requires Valid() && 0 <= b < TableSize
      reads this, bands, catalogs
      ensures bd == bands[b]
      ensures StackBound(b, bd.stack)
      ensures bd.stack.entries == |catalogs[bd.stack.table]|
    {
      assert StackBound(b, bands[b].stack);
      bands[b]
    }

    /** bandstack_get_bandstack: band b's bandstack and the entries it points at. */
    function BandstackOf(b: int): (r: (Stack, seq<Entry>))
      requires Valid() && 0 <= b < TableSize
      reads this, bands, catalogs
      ensures StackBound(b, r.0) && |r.1| == r.0.entries
      ensures r.0 == bands[b].stack && r.1 == catalogs[r.0.table]
    {
      var bd := BandAt(b);
      (bd.stack, catalogs[bd.stack.table])
    }

    /** radio_change_region: record r and, for a known region, bind the 60 m
        bandstack and the channel table to the region's catalogs. */
    method ChangeRegion(r: int)
      requires Valid()
      modifies this, bands
      ensures Valid() && bands == old(bands) && catalogs == old(catalogs)
      ensures region == r
      ensures bands[..] == Rebind60(old(bands[..]), r)
      ensures match RegionPlanOf(r)
        case None => channelEntries == old(channelEntries) && channels == old(channels)
        case Some(plan) => channelEntries == plan.channelEntries && channels == plan.channels
    {
      Rebind60WellFormed(bands[..], catalogs[..], r);
      region := r;
      match RegionPlanOf(r) {
        case None =>
        case Some(plan) =>
          channelEntries := plan.channelEntries;
          channels := plan.channels;
          var bd := bands[Band60];
          bands[Band60] := bd.(stack := Stack(plan.entries, 0, plan.table));
      }
    }

    /** bandSaveState: every titled band's persisted fields, title, PA
        calibration and bandstack slots are written to the store. */
    method SaveState(p: Props) returns (q: Props)
      requires Valid()
      ensures SavedFrom(q, p, bands[..], catalogs[..])
    {
      q := p;
      var b := 0;
      while b < TableSize
        invariant 0 <= b <= TableSize
        invariant SavedBelow(q, p, bands[..], catalogs[..], b)
      {
        var bd := bands[b];
        assert StackBound(b, bd.stack);
        var q' := SaveBand(q, b, bd, catalogs[bd.stack.table]);
        SaveStep(q, q', p, bands[..], catalogs[..], b);
        q := q';
        b := b + 1;
      }
      SavedBelowAll(q, p, bands[..], catalogs[..]);
    }

    /** bandRestoreState: the read loop over every band, then the clamp loop. */
    method RestoreState(p: Props)
      requires Valid()
      modifies bands, catalogs
      ensures Valid()
      ensures bands[..] == Restore(p, old(bands[..]), old(catalogs[..])).bands
      ensures catalogs[..] == Restore(p, old(bands[..]), old(catalogs[..])).catalogs
    {
      ghost var bands0, cats0 := bands[..], catalogs[..];
      ghost var restored := Restore(p, bands0, cats0);
      ReadState(p);
      ClampState();
      assert bands[..] == restored.bands;
      assert catalogs[..] == restored.catalogs;
      RestoreSane(p, bands0, cats0);
    }

    /** The read loop of bandRestoreState: every band, titled or not, and its
        bandstack slots are read from the store. */
    method ReadState(p: Props)
      requires Valid()
      modifies bands, catalogs
      ensures forall x :: 0 <= x < TableSize ==> bands[x] == ReadBand(p, x, old(bands[x]))
      ensures forall t :: 0 <= t < CatalogCount ==> catalogs[t] == RestoredCatalog(p, old(bands[..]), old(catalogs[..]), t)
    {
      ghost var bands0, cats0 := bands[..], catalogs[..];
      var b := 0;
      while b < TableSize
        invariant 0 <= b <= TableSize
        invariant forall x :: 0 <= x < TableSize ==> bands[x] == if x < b then ReadBand(p, x, bands0[x]) else bands0[x]
        invariant forall t :: 0 <= t < CatalogCount ==>
          catalogs[t] == if ReadBefore(bands0, t, b) then RestoredCatalog(p, bands0, cats0, t) else cats0[t]
      {
        ReadBandState(p, b, bands0, cats0);
        b := b + 1;
      }
    }

    /** One iteration of the read loop: band b's fields, then its bandstack slots. */
    method ReadBandState(p: Props, b: int, ghost bands0: seq<Band>, ghost cats0: seq<seq<Entry>>)
      requires bands.Length == TableSize && catalogs.Length == CatalogCount
      requires WellFormed(bands0, cats0) && 0 <= b < TableSize
      requires forall x :: 0 <= x < TableSize ==> bands[x] == if x < b then ReadBand(p, x, bands0[x]) else bands0[x]
      requires forall t :: 0 <= t < CatalogCount ==>
        catalogs[t] == if ReadBefore(bands0, t, b) then RestoredCatalog(p, bands0, cats0, t) else cats0[t]
      modifies bands, catalogs
      ensures forall x :: 0 <= x < TableSize ==> bands[x] == if x < b + 1 then ReadBand(p, x, bands0[x]) else bands0[x]
      ensures forall t :: 0 <= t < CatalogCount ==>
        catalogs[t] == if ReadBefore(bands0, t, b + 1) then RestoredCatalog(p, bands0, cats0, t) else cats0[t]
    {
      var bd := ReadBand(p, b, bands[b]);
      var t := bd.stack.table;
      assert StackBound(b, bands0[b].stack);
      OwnerOfBand(bands0, cats0, t, b);
      ReadSlots(p, b, t, bd.stack.entries);
      bands[b] := bd;
      forall u | 0 <= u < CatalogCount
        ensures catalogs[u] == if ReadBefore(bands0, u, b + 1) then RestoredCatalog(p, bands0, cats0, u) else cats0[u]
      {
        OwnerOfBand(bands0, cats0, u, b);
      }
    }

    /** Whether catalog t has been read by the first n iterations of the read loop. */
    static predicate ReadBefore(bands: seq<Band>, t: int, n: int)
      requires |bands| == TableSize
    {
      OwnerOf(bands, t).Some? && OwnerOf(bands, t).value < n
    }

    /** The inner read loop: slots 0..n-1 of band b from the store into catalog t. */
    method ReadSlots(p: Props, b: int, t: int, n: int)
      requires catalogs.Length == CatalogCount && 0 <= t < CatalogCount && 0 <= n <= |catalogs[t]|
      modifies catalogs
      ensures catalogs[t] == ReadEntries(p, b, old(catalogs[t]), n)
      ensures forall u :: 0 <= u < CatalogCount && u != t ==> catalogs[u] == old(catalogs[u])
    {
      var s := 0;
      while s < n
        invariant 0 <= s <= n
        invariant catalogs[t] == ReadEntries(p, b, old(catalogs[t]), s)
        invariant forall u :: 0 <= u < CatalogCount && u != t ==> catalogs[u] == old(catalogs[u])
      {
        catalogs[t] := catalogs[t][s := ReadEntry(p, b, s, catalogs[t][s])];
        s := s + 1;
      }
    }

    /** The clamp loop of bandRestoreState. */
    method ClampState()
      requires bands.Length == TableSize
      modifies bands
      ensures forall x :: 0 <= x < TableSize ==> bands[x] == ClampBand(old(bands[x]))
    {
      var b := 0;
      while b < TableSize
        invariant 0 <= b <= TableSize
        invariant forall x :: 0 <= x < TableSize ==> bands[x] == if x < b then ClampBand(old(bands[x])) else old(bands[x])
      {
        var bd := bands[b];
        if bd.stack.current >= bd.stack.entries {
          bd := bd.(stack := bd.stack.(current := 0));
        }
        if bd.alexTxAntenna > 2 || bd.alexTxAntenna < 0 {
          bd := bd.(alexTxAntenna := 0);
        }
        if bd.paCalibration < 38.8 {
          bd := bd.(paCalibration := 38.8);
        }
        if bd.paCalibration > 70.0 {
          bd := bd.(paCalibration := 70.0);
        }
        bands[b] := bd;
        b := b + 1;
      }
    }

    /** get_band_from_frequency: the fixed bands searched only inside the
        radio's range, then the transverter slots, whose match wins; with no
        match the WWV/general-coverage fallback. */
    method GetBandFromFrequency(f: int, radioMin: int, radioMax: int) returns (found: int)
      requires Valid()
      ensures found == BandFromFrequency(bands[..], f, radioMin, radioMax)
    {
      found := -1;
      var b := 0;
      if f >= radioMin && f <= radioMax {
        while b < BandCount
          invariant 0 <= b <= BandCount
          invariant forall j :: 0 <= j < b ==> !Matches(bands[j], f)
        {
          var band := bands[b];
          if |band.title| > 0 {
            if f >= band.frequencyMin && f <= band.frequencyMax {
              found := b;
              break;
            }
          }
          b := b + 1;
        }
      }
      ghost var fixed := found;
      assert fixed == if radioMin <= f <= radioMax then FirstMatch(bands[..], f, 0, BandCount) else -1;
      b := BandCount;
      while b < TableSize
        invariant BandCount <= b <= TableSize
        invariant forall j :: BandCount <= j < b ==> !Matches(bands[j], f)
        invariant found == fixed
      {
        var band := bands[b];
        if |band.title| > 0 {
          if f >= band.frequencyMin && f <= band.frequencyMax {
            found := b;
            break;
          }
        }
        b := b + 1;
      }
      if found < 0 {
        found := BandGen;
        if Abs(f - 2500000) <= 1000 { found := BandWWV; }
        if Abs(f - 5000000) <= 1000 { found := BandWWV; }
        if Abs(f - 10000000) <= 1000 { found := BandWWV; }
        if Abs(f - 15000000) <= 1000 { found := BandWWV; }
        if Abs(f - 20000000) <= 1000 { found := BandWWV; }
        if Abs(f - 25000000) <= 1000 { found := BandWWV; }
      }
    }

    /** band_plus (up) and band_minus (down) from band start: step cyclically,
        offer each titled band to the VFO (accept says whether the VFO took
        it) and stop at the first band taken. The titled bands offered are
        returned in order. When the VFO refuses every titled band, the source
        loops for ever; here the result is None after one full cycle. */
    method BandStep(start: int, up: bool, accept: int -> bool) returns (offered: seq<int>, landed: Option<int>, steps: nat)
      requires Valid() && 0 <= start < TableSize
      ensures StepFacts(bands[..], start, up, accept, offered, landed, steps)
    {
      var b := start;
      offered := [];
      landed := None;
      steps := 0;
      while steps < TableSize
        invariant 0 <= steps <= TableSize
        invariant b == Walk(start, up, steps)
        invariant offered == TitledWalk(bands[..], start, up, steps)
        invariant forall i :: 0 <= i < |offered| ==> !accept(offered[i])
      {
        if up {
          b := b + 1;
          if b >= TableSize { b := 0; }
        } else {
          b := b - 1;
          if b < 0 { b := TableSize - 1; }
        }
        steps := steps + 1;
        if |bands[b].title| > 0 {
          offered := offered + [b];
          if accept(b) {
            landed := Some(b);
            return;
          }
        }
      }
    }
  }

  /** What one call of the band step loop leaves: steps single steps were
      taken, the titled bands met on the way were offered in order, every one
      but the last was refused, and the step stopped either on the last one
      offered, which was taken, or after a full cycle with nothing taken. */
  ghost predicate StepFacts(bands: seq<Band>, start: int, up: bool, accept: int -> bool,
                            offered: seq<int>, landed: Option<int>, steps: nat)
    requires |bands| == TableSize && 0 <= start < TableSize
  {
    1 <= steps <= TableSize && offered == TitledWalk(bands, start, up, steps) &&
    (forall i :: 0 <= i < |offered| - 1 ==> !accept(offered[i])) &&
    (landed.Some? ==> |offered| > 0 && landed.value == offered[|offered| - 1] == Walk(start, up, steps) &&
                      accept(landed.value)) &&
    (landed.None? ==> steps == TableSize && forall i :: 0 <= i < |offered| ==> !accept(offered[i]))
  }

  /** The consequences of a band step: only titled bands are offered; it lands
      exactly when the last band offered is taken; when it lands nowhere, every
      titled band was offered and refused; and a VFO that takes every band
      lands on the next titled band. */
  lemma StepOutcome(bands: seq<Band>, start: int, up: bool, accept: int -> bool,
                    offered: seq<int>, landed: Option<int>, steps: nat)
    requires |bands| == TableSize && 0 <= start < TableSize
    requires StepFacts(bands, start, up, accept, offered, landed, steps)
    ensures forall i :: 0 <= i < |offered| ==> 0 <= offered[i] < TableSize && bands[offered[i]].Titled()
    ensures landed.Some? <==> |offered| > 0 && accept(offered[|offered| - 1])
    ensures landed.None? ==>
      forall j :: 0 <= j < TableSize && bands[j].Titled() ==> j in offered && !accept(j)
    ensures bands[start].Titled() && (forall x :: accept(x)) ==> landed == Some(NextTitled(bands, start, up))
  {
    TitledWalkTitled(bands, start, up, steps);
    TitledWalkCycle(bands, start, up, steps);
    if landed.None? {
      forall j | 0 <= j < TableSize && bands[j].Titled() ensures j in offered && !accept(j) {
        var i :| 0 <= i < |offered| && offered[i] == j;
      }
    }
    if bands[start].Titled() && (forall x :: accept(x)) {
      if steps == TableSize {
        assert start in offered;
      }
      assert accept(offered[0]);
      assert |offered| == 1 && landed.Some?;
      var before := TitledWalk(bands, start, up, steps - 1);
      assert offered == before + [Walk(start, up, steps)];
      assert before == [];
      FirstTitledIsNext(bands, start, up, steps);
    }
  }
}

/** Saving the band table to the property store and restoring it from there
    (band.c:540-647), stated over values. The store itself is abstract: three
    typed maps from a structured property name to the value last written
    under it, where a name that was never written is simply absent. */
module BandPersistence {
  import opened Wrappers
  import opened BandCatalog

  // ---------------------------------------------------------------------
  // The property store
  // ---------------------------------------------------------------------

  /** The integer properties of a band record ("band.<b>.<field>"). */
  datatype IntField =
    | FrequencyLO | ErrorLO | Gain | FrequencyMin | FrequencyMax | DisablePA
    | Current | AlexRxAntenna | AlexTxAntenna | AlexAttenuation | OCrx | OCtx

  /** The properties of one bandstack entry ("band.<b>.stack.<s>.<field>"). */
  datatype EntryField =
    | Frequency | Mode | Filter | Ctun | CtunFrequency | Deviation | CtcssEnabled | Ctcss

  /** A property name. Every name belongs to exactly one band. */
  datatype Key =
    | BandInt(band: int, field: IntField)
    | BandTitle(band: int)
    | BandPaCalibration(band: int)
    | StackInt(band: int, slot: int, entryField: EntryField)

  /** The property store, one map per value kind. */
  datatype Props = Props(ints: map<Key, int>, reals: map<Key, real>, strings: map<Key, string>)

  function Lookup<V>(m: map<Key, V>, k: Key): Option<V> {
    if k in m then Some(m[k]) else None
  }

  /** The first value if there is one, else the second. */
  function Override<V>(a: Option<V>, b: Option<V>): Option<V> {
    if a.Some? then a else b
  }

  /** A read that leaves the destination unchanged when the name is absent. */
  function GetInt(p: Props, k: Key, dflt: int): int {
    if k in p.ints then p.ints[k] else dflt
  }

  function GetReal(p: Props, k: Key, dflt: real): real {
    if k in p.reals then p.reals[k] else dflt
  }

  function GetString(p: Props, k: Key, dflt: string): string {
    if k in p.strings then p.strings[k] else dflt
  }

  // ---------------------------------------------------------------------
  // Field access
  // ---------------------------------------------------------------------

  function IntFieldOf(bd: Band, f: IntField): int {
    match f
    case FrequencyLO => bd.frequencyLO
    case ErrorLO => bd.errorLO
    case Gain => bd.gain
    case FrequencyMin => bd.frequencyMin
    case FrequencyMax => bd.frequencyMax
    case DisablePA => bd.disablePA
    case Current => bd.stack.current
    case AlexRxAntenna => bd.alexRxAntenna
    case AlexTxAntenna => bd.alexTxAntenna
    case AlexAttenuation => bd.alexAttenuation
    case OCrx => bd.ocRx
    case OCtx => bd.ocTx
  }

  function EntryFieldOf(e: Entry, f: EntryField): int {
    match f
    case Frequency => e.frequency
    case Mode => e.mode
    case Filter => e.filter
    case Ctun => e.ctun
    case CtunFrequency => e.ctunFrequency
    case Deviation => e.deviation
    case CtcssEnabled => e.ctcssEnabled
    case Ctcss => e.ctcss
  }

  /** Two bands agreeing on every integer field, the title, the calibration
      and the bandstack's shape are the same band. */
  lemma BandExt(a: Band, b: Band)
    requires forall f :: IntFieldOf(a, f) == IntFieldOf(b, f)
    requires a.title == b.title && a.paCalibration == b.paCalibration
    requires a.stack.entries == b.stack.entries && a.stack.table == b.stack.table
    ensures a == b
  {
    assert IntFieldOf(a, FrequencyLO) == IntFieldOf(b, FrequencyLO);
    assert IntFieldOf(a, ErrorLO) == IntFieldOf(b, ErrorLO);
    assert IntFieldOf(a, Gain) == IntFieldOf(b, Gain);
    assert IntFieldOf(a, FrequencyMin) == IntFieldOf(b, FrequencyMin);
    assert IntFieldOf(a, FrequencyMax) == IntFieldOf(b, FrequencyMax);
    assert IntFieldOf(a, DisablePA) == IntFieldOf(b, DisablePA);
    assert IntFieldOf(a, Current) == IntFieldOf(b, Current);
    assert IntFieldOf(a, AlexRxAntenna) == IntFieldOf(b, AlexRxAntenna);
    assert IntFieldOf(a, AlexTxAntenna) == IntFieldOf(b, AlexTxAntenna);
    assert IntFieldOf(a, AlexAttenuation) == IntFieldOf(b, AlexAttenuation);
    assert IntFieldOf(a, OCrx) == IntFieldOf(b, OCrx);
    assert IntFieldOf(a, OCtx) == IntFieldOf(b, OCtx);
  }

  /** Whether band b's integer field f is written on save and read back on
      restore: the local-oscillator fields and the gain only for transverter
      slots, the range only for the bands above 10 m; the rest always. */
  predicate Persisted(b: int, f: IntField) {
    (f in {FrequencyLO, ErrorLO, Gain} ==> b >= BandCount) &&
    (f in {FrequencyMin, FrequencyMax} ==> b > LastFixedRangeBand)
  }


  /** Two entries agreeing on every field are the same entry. */
  lemma EntryExt(a: Entry, b: Entry)
    requires forall f :: EntryFieldOf(a, f) == EntryFieldOf(b, f)
    ensures a == b
  {
    assert EntryFieldOf(a, Frequency) == EntryFieldOf(b, Frequency);
    assert EntryFieldOf(a, Mode) == EntryFieldOf(b, Mode);
    assert EntryFieldOf(a, Filter) == EntryFieldOf(b, Filter);
    assert EntryFieldOf(a, Ctun) == EntryFieldOf(b, Ctun);
    assert EntryFieldOf(a, CtunFrequency) == EntryFieldOf(b, CtunFrequency);
    assert EntryFieldOf(a, Deviation) == EntryFieldOf(b, Deviation);
    assert EntryFieldOf(a, CtcssEnabled) == EntryFieldOf(b, CtcssEnabled);
    assert EntryFieldOf(a, Ctcss) == EntryFieldOf(b, Ctcss);
  }

  /** Two maps of the store agreeing on every name are the same map. */
  lemma MapExt<V>(a: map<Key, V>, b: map<Key, V>)
    requires forall k :: Lookup(a, k) == Lookup(b, k)
    ensures a == b
  {
    forall k ensures (k in a <==> k in b) && (k in a ==> a[k] == b[k]) {
      assert Lookup(a, k) == Lookup(b, k);
    }
  }

  // ---------------------------------------------------------------------
  // Save (band.c:540-580)
  // ---------------------------------------------------------------------

  /** The integer value saving band b, whose bandstack entries are cat, writes
      under k once its first n slots are done: nothing for an untitled band;
      otherwise its persisted fields and all eight fields of each of those slots. */
  function BandSavedInt(b: int, bd: Band, cat: seq<Entry>, n: int, k: Key): Option<int>
    requires 0 <= n <= |cat|
  {
    if !bd.Titled() || k.band != b then None
    else match k
      case BandInt(_, f) => if Persisted(b, f) then Some(IntFieldOf(bd, f)) else None
      case StackInt(_, s, f) => if 0 <= s < n then Some(EntryFieldOf(cat[s], f)) else None
      case _ => None
  }

  /** The integer value the whole save loop writes under k, if any. (The guard
      on the bandstack holds in every well-formed table.) */
  function SavedInt(bands: seq<Band>, cats: seq<seq<Entry>>, k: Key): Option<int> {
    if 0 <= k.band < |bands| && bands[k.band].stack.table < |cats| &&
       0 <= bands[k.band].stack.entries <= |cats[bands[k.band].stack.table]|
    then BandSavedInt(k.band, bands[k.band], cats[bands[k.band].stack.table], bands[k.band].stack.entries, k)
    else None
  }

  /** The PA calibration the save loop writes under k: titled bands only. */
  function SavedReal(bands: seq<Band>, k: Key): Option<real> {
    if k.BandPaCalibration? && 0 <= k.band < |bands| && bands[k.band].Titled()
    then Some(bands[k.band].paCalibration) else None
  }

  /** The title the save loop writes under k: titled bands only. */
  function SavedString(bands: seq<Band>, k: Key): Option<string> {
    if k.BandTitle? && 0 <= k.band < |bands| && bands[k.band].Titled()
    then Some(bands[k.band].title) else None
  }

  /** q is the store the save loop leaves behind when it starts from p: every
      name it writes holds the value written, every other name what p held. */
  ghost predicate SavedFrom(q: Props, p: Props, bands: seq<Band>, cats: seq<seq<Entry>>) {
    (forall k :: Lookup(q.ints, k) == Override(SavedInt(bands, cats, k), Lookup(p.ints, k))) &&
    (forall k :: Lookup(q.reals, k) == Override(SavedReal(bands, k), Lookup(p.reals, k))) &&
    (forall k :: Lookup(q.strings, k) == Override(SavedString(bands, k), Lookup(p.strings, k)))
  }

  /** The store the save leaves is determined by the store it started from and the table. */
  lemma SavedFromUnique(q1: Props, q2: Props, p: Props, bands: seq<Band>, cats: seq<seq<Entry>>)
    requires SavedFrom(q1, p, bands, cats) && SavedFrom(q2, p, bands, cats)
    ensures q1 == q2
  {
    forall k ensures Lookup(q1.ints, k) == Lookup(q2.ints, k) {
      assert Lookup(q1.ints, k) == Override(SavedInt(bands, cats, k), Lookup(p.ints, k));
    }
    forall k ensures Lookup(q1.reals, k) == Lookup(q2.reals, k) {
      assert Lookup(q1.reals, k) == Override(SavedReal(bands, k), Lookup(p.reals, k));
    }
    forall k ensures Lookup(q1.strings, k) == Lookup(q2.strings, k) {
      assert Lookup(q1.strings, k) == Override(SavedString(bands, k), Lookup(p.strings, k));
    }
    MapExt(q1.ints, q2.ints);
    MapExt(q1.reals, q2.reals);
    MapExt(q1.strings, q2.strings);
  }

  /** Saving the same table a second time leaves the store as the first save did. */
  lemma SaveIdempotent(q: Props, q2: Props, p: Props, bands: seq<Band>, cats: seq<seq<Entry>>)
    requires SavedFrom(q, p, bands, cats) && SavedFrom(q2, q, bands, cats)
    ensures q2 == q
  {
    forall k ensures Lookup(q2.ints, k) == Lookup(q.ints, k) {
      assert Lookup(q.ints, k) == Override(SavedInt(bands, cats, k), Lookup(p.ints, k));
      assert Lookup(q2.ints, k) == Override(SavedInt(bands, cats, k), Lookup(q.ints, k));
    }
    forall k ensures Lookup(q2.reals, k) == Lookup(q.reals, k) {
      assert Lookup(q.reals, k) == Override(SavedReal(bands, k), Lookup(p.reals, k));
      assert Lookup(q2.reals, k) == Override(SavedReal(bands, k), Lookup(q.reals, k));
    }
    forall k ensures Lookup(q2.strings, k) == Lookup(q.strings, k) {
      assert Lookup(q.strings, k) == Override(SavedString(bands, k), Lookup(p.strings, k));
      assert Lookup(q2.strings, k) == Override(SavedString(bands, k), Lookup(q.strings, k));
    }
    MapExt(q2.ints, q.ints);
    MapExt(q2.reals, q.reals);
    MapExt(q2.strings, q.strings);
  }

  // ---------------------------------------------------------------------
  // Restore (band.c:582-647)
  // ---------------------------------------------------------------------

  /** The band table together with the entry catalogs its bandstacks point at. */
  datatype Tables = Tables(bands: seq<Band>, catalogs: seq<seq<Entry>>)

  /** The band-level reads of the restore loop for band b: the mirror of the
      save rule, with the title read only for transverter slots. */
  function ReadBand(p: Props, b: int, bd: Band): (r: Band)
    ensures r.stack.entries == bd.stack.entries && r.stack.table == bd.stack.table
    ensures forall f :: (IntFieldOf(r, f) ==
      if Persisted(b, f) then GetInt(p, BandInt(b, f), IntFieldOf(bd, f)) else IntFieldOf(bd, f))
    ensures r.title == if b >= BandCount then GetString(p, BandTitle(b), bd.title) else bd.title
    ensures r.paCalibration == GetReal(p, BandPaCalibration(b), bd.paCalibration)
  {
    var xvtr := b >= BandCount;
    var ranged := b > LastFixedRangeBand;
    Band(
      if xvtr then GetString(p, BandTitle(b), bd.title) else bd.title,
      Stack(bd.stack.entries, GetInt(p, BandInt(b, Current), bd.stack.current), bd.stack.table),
      GetInt(p, BandInt(b, OCrx), bd.ocRx),
      GetInt(p, BandInt(b, OCtx), bd.ocTx),
      if xvtr then GetInt(p, BandInt(b, Gain), bd.gain) else bd.gain,
      GetInt(p, BandInt(b, AlexRxAntenna), bd.alexRxAntenna),
      GetInt(p, BandInt(b, AlexTxAntenna), bd.alexTxAntenna),
      GetInt(p, BandInt(b, AlexAttenuation), bd.alexAttenuation),
      GetReal(p, BandPaCalibration(b), bd.paCalibration),
      if ranged then GetInt(p, BandInt(b, FrequencyMin), bd.frequencyMin) else bd.frequencyMin,
      if ranged then GetInt(p, BandInt(b, FrequencyMax), bd.frequencyMax) else bd.frequencyMax,
      if xvtr then GetInt(p, BandInt(b, FrequencyLO), bd.frequencyLO) else bd.frequencyLO,
      if xvtr then GetInt(p, BandInt(b, ErrorLO), bd.errorLO) else bd.errorLO,
      GetInt(p, BandInt(b, DisablePA), bd.disablePA))
  }

  /** The reads for bandstack slot s of band b. */
  function ReadEntry(p: Props, b: int, s: int, e: Entry): (r: Entry)
    ensures forall f :: EntryFieldOf(r, f) == GetInt(p, StackInt(b, s, f), EntryFieldOf(e, f))
  {
    Entry(
      GetInt(p, StackInt(b, s, Frequency), e.frequency),
      GetInt(p, StackInt(b, s, Ctun), e.ctun),
      GetInt(p, StackInt(b, s, CtunFrequency), e.ctunFrequency),
      GetInt(p, StackInt(b, s, Mode), e.mode),
      GetInt(p, StackInt(b, s, Filter), e.filter),
      GetInt(p, StackInt(b, s, Deviation), e.deviation),
      GetInt(p, StackInt(b, s, CtcssEnabled), e.ctcssEnabled),
      GetInt(p, StackInt(b, s, Ctcss), e.ctcss))
  }

  /** The reads for slots 0..n-1 of band b into its catalog cat. */
  function ReadEntries(p: Props, b: int, cat: seq<Entry>, n: nat): seq<Entry>
    requires n <= |cat|
  {
    seq(|cat|, s requires 0 <= s < |cat| => if s < n then ReadEntry(p, b, s, cat[s]) else cat[s])
  }

  /** The band whose bandstack points at catalog t, if any: the 60 m band for
      whichever catalog it uses, every other band for its own. */
  function OwnerOf(bands: seq<Band>, t: int): Option<int>
    requires |bands| == TableSize
  {
    if t == bands[Band60].stack.table then Some(Band60)
    else if 0 <= t < TableSize && t != Band60 then Some(t)
    else None
  }

  /** In a well-formed table the owner of catalog t is exactly the band whose
      bandstack points at t, so the restore loop reads each catalog at most once. */
  lemma OwnerOfBand(bands: seq<Band>, cats: seq<seq<Entry>>, t: int, b: int)
    requires WellFormed(bands, cats) && 0 <= b < TableSize
    ensures OwnerOf(bands, t) == Some(b) <==> bands[b].stack.table == t
  {
    assert StackBound(b, bands[b].stack);
    assert StackBound(Band60, bands[Band60].stack);
  }

  /** Catalog t after the read loop: its owner's slots as read from the store. */
  function RestoredCatalog(p: Props, bands: seq<Band>, cats: seq<seq<Entry>>, t: int): (c: seq<Entry>)
    requires WellFormed(bands, cats) && 0 <= t < CatalogCount
    ensures |c| == |cats[t]|
  {
    match OwnerOf(bands, t)
    case None => cats[t]
    case Some(b) =>
      OwnerOfBand(bands, cats, t, b);
      assert StackBound(b, bands[b].stack);
      ReadEntries(p, b, cats[t], bands[b].stack.entries)
  }

  /** The sanity clamps of the second restore loop, applied to one band. A
      negative current entry is not caught. */
  function ClampBand(bd: Band): (r: Band)
    ensures r == bd.(stack := r.stack, alexTxAntenna := r.alexTxAntenna, paCalibration := r.paCalibration)
    ensures r.stack == bd.stack.(current := r.stack.current)
    ensures r.stack.current == if bd.stack.current >= bd.stack.entries then 0 else bd.stack.current
    ensures r.alexTxAntenna == if 0 <= bd.alexTxAntenna <= 2 then bd.alexTxAntenna else 0
    ensures r.paCalibration == if bd.paCalibration < 38.8 then 38.8
                               else if bd.paCalibration > 70.0 then 70.0 else bd.paCalibration
  {
    var current := if bd.stack.current >= bd.stack.entries then 0 else bd.stack.current;
    var tx := if bd.alexTxAntenna > 2 || bd.alexTxAntenna < 0 then 0 else bd.alexTxAntenna;
    var pa := if bd.paCalibration < 38.8 then 38.8 else bd.paCalibration;
    var pa := if pa > 70.0 then 70.0 else pa;
    bd.(stack := bd.stack.(current := current), alexTxAntenna := tx, paCalibration := pa)
  }

  /** The ranges the clamps establish. */
  predicate Sane(bd: Band) {
    bd.stack.current < bd.stack.entries &&
    0 <= bd.alexTxAntenna <= 2 &&
    38.8 <= bd.paCalibration <= 70.0
  }

  /** The clamps establish their ranges and leave a band already inside them alone. */
  lemma ClampBandSane(bd: Band)
    requires bd.stack.entries > 0
    ensures Sane(ClampBand(bd))
    ensures Sane(bd) ==> ClampBand(bd) == bd
  {
  }

  /** The whole restore: the read loop over every band, titled or not,
      followed by the clamp loop. */
  function Restore(p: Props, bands: seq<Band>, cats: seq<seq<Entry>>): (r: Tables)
    requires WellFormed(bands, cats)
    ensures |r.bands| == TableSize && |r.catalogs| == CatalogCount
  {
    Tables(seq(TableSize, b requires 0 <= b < TableSize => ClampBand(ReadBand(p, b, bands[b]))),
           seq(CatalogCount, t requires 0 <= t < CatalogCount => RestoredCatalog(p, bands, cats, t)))
  }

  /** Restore keeps the table well-formed, leaves every band inside the clamps
      and keeps the fixed bands' titles. */
  lemma RestoreSane(p: Props, bands: seq<Band>, cats: seq<seq<Entry>>)
    requires WellFormed(bands, cats)
    ensures WellFormed(Restore(p, bands, cats).bands, Restore(p, bands, cats).catalogs)
    ensures forall b :: 0 <= b < TableSize ==> Sane(Restore(p, bands, cats).bands[b])
    ensures forall b :: 0 <= b < BandCount ==> Restore(p, bands, cats).bands[b].title == bands[b].title
  {
    var r := Restore(p, bands, cats);
    forall b | 0 <= b < TableSize
      ensures StackBound(b, r.bands[b].stack) && Sane(r.bands[b])
    {
      assert StackBound(b, bands[b].stack);
      ClampBandSane(ReadBand(p, b, bands[b]));
    }
    forall t | 0 <= t < CatalogCount ensures |r.catalogs[t]| == CatalogLength(t) {
      assert r.catalogs[t] == RestoredCatalog(p, bands, cats, t);
    }
  }

  /** Restoring from an empty store only applies the clamps. */
  lemma RestoreEmpty(bands: seq<Band>, cats: seq<seq<Entry>>)
    requires WellFormed(bands, cats)
    ensures var r := Restore(Props(map[], map[], map[]), bands, cats);
      r.catalogs == cats &&
      forall b :: 0 <= b < TableSize ==> r.bands[b] == ClampBand(bands[b])
  {
    var p := Props(map[], map[], map[]);
    var r := Restore(p, bands, cats);
    forall b | 0 <= b < TableSize ensures r.bands[b] == ClampBand(bands[b]) {
      BandExt(ReadBand(p, b, bands[b]), bands[b]);
    }
    forall t | 0 <= t < CatalogCount ensures r.catalogs[t] == cats[t] {
      forall s | 0 <= s < |cats[t]| ensures ReadEntry(p, 0, s, cats[t][s]) == cats[t][s] {
        EntryExt(ReadEntry(p, 0, s, cats[t][s]), cats[t][s]);
      }
    }
  }

  // ---------------------------------------------------------------------
  // Round trip
  // ---------------------------------------------------------------------

  /** Two bands whose bandstacks point at the same catalog with as many entries. */
  predicate SameShape(a: Band, b: Band) {
    a.stack.entries == b.stack.entries && a.stack.table == b.stack.table
  }

  /** What a round trip through the store should give band b: the persisted
      fields (and a transverter slot's title) come from the saved band s,
      everything else stays as in the destination band d. */
  function Carry(b: int, d: Band, s: Band): (r: Band)
    ensures forall f :: IntFieldOf(r, f) == if Persisted(b, f) then IntFieldOf(s, f) else IntFieldOf(d, f)
    ensures r.title == (if b >= BandCount then s.title else d.title)
    ensures r.paCalibration == s.paCalibration
    ensures r.stack.entries == d.stack.entries && r.stack.table == d.stack.table
  {
    var xvtr := b >= BandCount;
    var ranged := b > LastFixedRangeBand;
    Band(
      if xvtr then s.title else d.title,
      Stack(d.stack.entries, s.stack.current, d.stack.table),
      s.ocRx, s.ocTx,
      if xvtr then s.gain else d.gain,
      s.alexRxAntenna, s.alexTxAntenna, s.alexAttenuation, s.paCalibration,
      if ranged then s.frequencyMin else d.frequencyMin,
      if ranged then s.frequencyMax else d.frequencyMax,
      if xvtr then s.frequencyLO else d.frequencyLO,
      if xvtr then s.errorLO else d.errorLO,
      s.disablePA)
  }

  /** Reading band b back from a store that holds the saved band s's persisted
      fields, title and calibration gives the carried band. */
  lemma ReadBackBand(q: Props, b: int, d: Band, s: Band)
    requires SameShape(d, s)
    requires forall f :: Persisted(b, f) ==> Lookup(q.ints, BandInt(b, f)) == Some(IntFieldOf(s, f))
    requires Lookup(q.strings, BandTitle(b)) == Some(s.title)
    requires Lookup(q.reals, BandPaCalibration(b)) == Some(s.paCalibration)
    ensures ReadBand(q, b, d) == Carry(b, d, s)
  {
    var read := ReadBand(q, b, d);
    forall f ensures IntFieldOf(read, f) == IntFieldOf(Carry(b, d, s), f) {
      if Persisted(b, f) {
        assert Lookup(q.ints, BandInt(b, f)) == Some(IntFieldOf(s, f));
      }
    }
    BandExt(read, Carry(b, d, s));
  }

  /** Reading every slot back from a store holding the saved entries gives them back. */
  lemma ReadSavedEntries(q: Props, b: int, saved: seq<Entry>, dest: seq<Entry>)
    requires |saved| == |dest|
    requires forall s, f :: 0 <= s < |saved| ==> Lookup(q.ints, StackInt(b, s, f)) == Some(EntryFieldOf(saved[s], f))
    ensures ReadEntries(q, b, dest, |dest|) == saved
  {
    var r := ReadEntries(q, b, dest, |dest|);
    forall s | 0 <= s < |saved| ensures r[s] == saved[s] {
      EntryExt(r[s], saved[s]);
    }
  }

  /** Save followed by restore into a table whose bandstack for band b points
      at the same catalog as at the save (whatever the other bands, the 60 m
      bandstack among them, point at) gives a titled band b back its persisted
      fields, clamps aside, and its bandstack entries exactly. */
  lemma SaveRestoreRoundTrip(p: Props, q: Props, saved: Tables, dest: Tables, b: int)
    requires WellFormed(saved.bands, saved.catalogs) && WellFormed(dest.bands, dest.catalogs)
    requires SavedFrom(q, p, saved.bands, saved.catalogs)
    requires 0 <= b < TableSize && saved.bands[b].Titled()
    requires SameShape(dest.bands[b], saved.bands[b])
    ensures saved.bands[b].stack.table < CatalogCount
    ensures var r := Restore(q, dest.bands, dest.catalogs);
      var t := saved.bands[b].stack.table;
      r.bands[b] == ClampBand(Carry(b, dest.bands[b], saved.bands[b])) &&
      r.catalogs[t] == saved.catalogs[t]
  {
    var s, d := saved.bands[b], dest.bands[b];
    assert StackBound(b, s.stack) && SameShape(d, s);
    var t := s.stack.table;
    forall f | Persisted(b, f) ensures Lookup(q.ints, BandInt(b, f)) == Some(IntFieldOf(s, f)) {
      assert Lookup(q.ints, BandInt(b, f)) == Override(SavedInt(saved.bands, saved.catalogs, BandInt(b, f)), Lookup(p.ints, BandInt(b, f)));
    }
    assert Lookup(q.strings, BandTitle(b)) == Override(SavedString(saved.bands, BandTitle(b)), Lookup(p.strings, BandTitle(b)));
    assert Lookup(q.reals, BandPaCalibration(b)) == Override(SavedReal(saved.bands, BandPaCalibration(b)), Lookup(p.reals, BandPaCalibration(b)));
    ReadBackBand(q, b, d, s);
    forall x, f | 0 <= x < |saved.catalogs[t]|
      ensures Lookup(q.ints, StackInt(b, x, f)) == Some(EntryFieldOf(saved.catalogs[t][x], f))
    {
      var k := StackInt(b, x, f);
      assert Lookup(q.ints, k) == Override(SavedInt(saved.bands, saved.catalogs, k), Lookup(p.ints, k));
    }
    ReadSavedEntries(q, b, saved.catalogs[t], dest.catalogs[t]);
    OwnerOfBand(dest.bands, dest.catalogs, t, b);
    var r := Restore(q, dest.bands, dest.catalogs);
    assert r.catalogs[t] == RestoredCatalog(q, dest.bands, dest.catalogs, t);
  }

  /** A titled band that was already inside the clamps comes back exactly as
      saved, in every persisted field. */
  lemma SaveRestoreExact(p: Props, q: Props, saved: Tables, dest: Tables, b: int)
    requires WellFormed(saved.bands, saved.catalogs) && WellFormed(dest.bands, dest.catalogs)
    requires SavedFrom(q, p, saved.bands, saved.catalogs)
    requires 0 <= b < TableSize && saved.bands[b].Titled() && Sane(saved.bands[b])
    requires SameShape(dest.bands[b], saved.bands[b])
    ensures var r := Restore(q, dest.bands, dest.catalogs);
      (forall f :: Persisted(b, f) ==> IntFieldOf(r.bands[b], f) == IntFieldOf(saved.bands[b], f)) &&
      r.bands[b].paCalibration == saved.bands[b].paCalibration &&
      (b >= BandCount ==> r.bands[b].title == saved.bands[b].title)
  {
    SaveRestoreRoundTrip(p, q, saved, dest, b);
    var c := Carry(b, dest.bands[b], saved.bands[b]);
    assert IntFieldOf(c, Current) == saved.bands[b].stack.current;
    assert IntFieldOf(c, AlexTxAntenna) == saved.bands[b].alexTxAntenna;
    ClampBandSane(c);
  }
}

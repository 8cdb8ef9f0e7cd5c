/** The static band plan of band.c: tuning-memory catalogs, the bandstacks
    that point at them, the fixed table of 24 bands plus 10 transverter slots,
    and the 60 m channel tables selected by the regulatory region.
    Only the default build variant is modelled (not the alternative tables
    compiled in for region-1 builds). */
module BandCatalog {
  import opened Wrappers
  import opened Modes

  // ---------------------------------------------------------------------
  // Sizes and well-known indices (table order of band.c:398-434)
  // ---------------------------------------------------------------------

  /** Number of fixed bands. */
  const BandCount := 24
  /** Number of transverter slots. */
  const XvtrCount := 10
  /** Size of the band table. */
  const TableSize := BandCount + XvtrCount

  const Band136 := 0
  const Band472 := 1
  const Band160 := 2
  const Band80 := 3
  const Band60 := 4
  const Band40 := 5
  const Band30 := 6
  const Band20 := 7
  const Band17 := 8
  const Band15 := 9
  const Band12 := 10
  const Band10 := 11
  const Band6 := 12
  const Band70 := 13
  const Band144 := 14
  const Band220 := 15
  const Band430 := 16
  const Band902 := 17
  const Band1240 := 18
  const Band2300 := 19
  const Band3400 := 20
  const BandAIR := 21
  const BandWWV := 22
  const BandGen := 23

  /** The highest fixed band whose frequency range is not user-editable (10 m). */
  const LastFixedRangeBand := 11

  // Entry catalogs are addressed by a table id. Table t < TableSize is the
  // catalog band t starts with (for 60 m that is the VFO catalog); the four
  // other 60 m catalogs follow.
  const Table60UK := 34
  const Table60US := 35
  const Table60WRC15 := 36
  const Table60CA := 37
  const CatalogCount := 38

  // Region selector values, in the order the region selector offers them
  // (radio_menu.c:758-764 passes the selected position on unchanged).
  const RegionVfo := 0
  const RegionUK := 1
  const RegionUS := 2
  const RegionWRC15 := 3
  const RegionCA := 4

  const UkBandstackEntries := 11
  const VfoBandstackEntries := 5
  const UsBandstackEntries := 5
  const Wrc15BandstackEntries := 5
  const CaBandstackEntries := 5

  const UkChannelEntries := 11
  const VfoChannelEntries := 1
  const UsChannelEntries := 5
  const Wrc15ChannelEntries := 1
  const CaChannelEntries := 5

  // ---------------------------------------------------------------------
  // Data model
  // ---------------------------------------------------------------------

  /** One tuning memory. */
  datatype Entry = Entry(
    frequency: int,
    ctun: int,
    ctunFrequency: int,
    mode: int,
    filter: int,
    deviation: int,
    ctcssEnabled: int,
    ctcss: int)

  /** A bandstack: how many entries it has, which one is current, and which
      entry catalog it points at. */
  datatype Stack = Stack(entries: int, current: int, table: nat)

  /** One band record of the band table. */
  datatype Band = Band(
    title: string,
    stack: Stack,
    ocRx: int,
    ocTx: int,
    gain: int,
    alexRxAntenna: int,
    alexTxAntenna: int,
    alexAttenuation: int,
    paCalibration: real,
    frequencyMin: int,
    frequencyMax: int,
    frequencyLO: int,
    errorLO: int,
    disablePA: int)
  {
    /** An empty title marks an unassigned transverter slot. */
    predicate Titled() {
      |title| > 0
    }
  }

  /** A 60 m channel marker: centre frequency and width. */
  datatype Channel = Channel(frequency: int, width: int)

  // ---------------------------------------------------------------------
  // Entry catalogs (band.c:51-255, 296-345)
  // ---------------------------------------------------------------------

  /** Every static entry has CTUN off, a 2500 Hz deviation and CTCSS off. */
  function E(frequency: int, mode: int, filter: int): Entry {
    Entry(frequency, 0, 0, mode, filter, 2500, 0, 0)
  }

  function Entries60Vfo(): seq<Entry> {
    [E(5352750, ModeCWU, FilterF6), E(5354000, ModeUSB, FilterF5), E(5357000, ModeUSB, FilterF5),
     E(5360000, ModeUSB, FilterF5), E(5363000, ModeUSB, FilterF5)]
  }

  function Entries60Wrc15(): seq<Entry> {
    [E(5354000, ModeUSB, FilterF5), E(5357000, ModeUSB, FilterF5), E(5360000, ModeUSB, FilterF5),
     E(5363000, ModeUSB, FilterF5), E(5352750, ModeCWU, FilterF6)]
  }

  function Entries60Us(): seq<Entry> {
    [E(5332000, ModeUSB, FilterF5), E(5348000, ModeUSB, FilterF5), E(5358500, ModeUSB, FilterF5),
     E(5373000, ModeUSB, FilterF5), E(5405000, ModeUSB, FilterF5)]
  }

  function Entries60Uk(): seq<Entry> {
    [E(5261250, ModeUSB, FilterF5), E(5280000, ModeUSB, FilterF5), E(5290250, ModeUSB, FilterF5),
     E(5302500, ModeUSB, FilterF5), E(5318000, ModeUSB, FilterF5), E(5335500, ModeUSB, FilterF5),
     E(5356000, ModeUSB, FilterF5), E(5368250, ModeUSB, FilterF5), E(5380000, ModeUSB, FilterF5),
     E(5398250, ModeUSB, FilterF5), E(5405000, ModeUSB, FilterF5)]
  }

  function Entries60Ca(): seq<Entry> {
    [E(5332000, ModeUSB, FilterF5), E(5348000, ModeUSB, FilterF5), E(5358500, ModeUSB, FilterF5),
     E(5373000, ModeUSB, FilterF5), E(5405000, ModeUSB, FilterF5)]
  }

  /** Three CW/USB/USB memories, the pattern of most VHF/UHF bands. */
  function CwUsbUsb(f0: int, f1: int, f2: int): seq<Entry> {
    [E(f0, ModeCWU, FilterF6), E(f1, ModeUSB, FilterF5), E(f2, ModeUSB, FilterF5)]
  }

  /** The empty memories of a transverter slot. */
  function XvtrEntries(): seq<Entry> {
    [E(0, ModeUSB, FilterF6), E(0, ModeUSB, FilterF6), E(0, ModeUSB, FilterF6)]
  }

  /** All entry catalogs, indexed by table id. */
  function DefaultCatalogs(): (cats: seq<seq<Entry>>)
    ensures |cats| == CatalogCount
  {
    [ [E(135800, ModeCWL, FilterF6), E(137100, ModeCWL, FilterF6)],
      [E(472100, ModeCWL, FilterF6), E(475100, ModeCWL, FilterF6)],
      [E(1810000, ModeCWL, FilterF6), E(1835000, ModeCWU, FilterF6), E(1845000, ModeUSB, FilterF5)],
      [E(3501000, ModeCWL, FilterF6), E(3751000, ModeLSB, FilterF5), E(3850000, ModeLSB, FilterF5)],
      Entries60Vfo(),
      [E(7001000, ModeCWL, FilterF6), E(7152000, ModeLSB, FilterF5), E(7255000, ModeLSB, FilterF5)],
      [E(10120000, ModeCWU, FilterF6), E(10130000, ModeCWU, FilterF6), E(10140000, ModeCWU, FilterF6)],
      [E(14010000, ModeCWU, FilterF6), E(14150000, ModeUSB, FilterF5), E(14230000, ModeUSB, FilterF5),
       E(14336000, ModeUSB, FilterF5)],
      CwUsbUsb(18068600, 18125000, 18140000),
      CwUsbUsb(21001000, 21255000, 21300000),
      CwUsbUsb(24895000, 24900000, 24910000),
      CwUsbUsb(28010000, 28300000, 28400000),
      CwUsbUsb(50010000, 50125000, 50200000),
      CwUsbUsb(70010000, 70200000, 70250000),
      [E(144010000, ModeCWU, FilterF6), E(144200000, ModeUSB, FilterF5), E(144250000, ModeUSB, FilterF5),
       E(145600000, ModeFMN, FilterF0), E(145725000, ModeFMN, FilterF0), E(145900000, ModeFMN, FilterF0)],
      CwUsbUsb(220010000, 220200000, 220250000),
      CwUsbUsb(430010000, 432100000, 432300000),
      CwUsbUsb(902010000, 902100000, 902300000),
      CwUsbUsb(1240010000, 1240100000, 1240300000),
      CwUsbUsb(2300010000, 2300100000, 2300300000),
      CwUsbUsb(3400010000, 3400100000, 3400300000),
      [E(118800000, ModeAM, FilterF3), E(120000000, ModeAM, FilterF3), E(121700000, ModeAM, FilterF3),
       E(124100000, ModeAM, FilterF3), E(126600000, ModeAM, FilterF3), E(136500000, ModeAM, FilterF3)],
      [E(2500000, ModeSAM, FilterF3), E(5000000, ModeSAM, FilterF3), E(10000000, ModeSAM, FilterF3),
       E(15000000, ModeSAM, FilterF3), E(20000000, ModeSAM, FilterF3), E(25000000, ModeSAM, FilterF3)],
      [E(909000, ModeAM, FilterF3), E(5975000, ModeAM, FilterF3), E(13845000, ModeAM, FilterF3)],
      XvtrEntries(), XvtrEntries(), XvtrEntries(), XvtrEntries(), XvtrEntries(),
      XvtrEntries(), XvtrEntries(), XvtrEntries(), XvtrEntries(), XvtrEntries(),
      Entries60Uk(), Entries60Us(), Entries60Wrc15(), Entries60Ca() ]
  }

  /** The length of each static entry array. */
  function CatalogLength(t: int): int {
    if t == Band136 || t == Band472 then 2
    else if t == Band60 then VfoBandstackEntries
    else if t == Band20 then 4
    else if t == Band144 || t == BandAIR || t == BandWWV then 6
    else if t == Table60UK then UkBandstackEntries
    else if t == Table60US then UsBandstackEntries
    else if t == Table60WRC15 then Wrc15BandstackEntries
    else if t == Table60CA then CaBandstackEntries
    else 3
  }

  // ---------------------------------------------------------------------
  // Bandstacks and the band table (band.c:257-288, 347-356, 398-434)
  // ---------------------------------------------------------------------

  /** A fixed band with everything but its range and PA calibration zero. */
  function FixedBand(title: string, stack: Stack, paCalibration: real, lo: int, hi: int): Band {
    Band(title, stack, 0, 0, 0, 0, 0, 0, paCalibration, lo, hi, 0, 0, 0)
  }

  /** An unassigned transverter slot: empty title, no range, PA disabled. */
  function XvtrSlot(t: nat): Band {
    Band("", Stack(3, 0, t), 0, 0, 0, 0, 0, 0, 53.0, 0, 0, 0, 0, 1)
  }

  /** The band table as the program starts with it. */
  function DefaultBands(): (bands: seq<Band>)
    ensures |bands| == TableSize
  {
    [ FixedBand("136kHz", Stack(2, 0, 0), 38.8, 135700, 137800),
      FixedBand("472kHz", Stack(2, 0, 1), 38.8, 472000, 479000),
      FixedBand("160", Stack(3, 1, 2), 38.8, 1800000, 2000000),
      FixedBand("80", Stack(3, 1, 3), 38.8, 3500000, 4400000),
      FixedBand("60", Stack(5, 1, 4), 38.8, 5250000, 5450000),
      FixedBand("40", Stack(3, 1, 5), 38.8, 6500000, 7300000),
      FixedBand("30", Stack(3, 1, 6), 38.8, 10100000, 11430000),
      FixedBand("20", Stack(4, 1, 7), 38.8, 14000000, 14350000),
      FixedBand("17", Stack(3, 1, 8), 38.8, 18068000, 18168000),
      FixedBand("15", Stack(3, 1, 9), 38.8, 21000000, 21450000),
      FixedBand("12", Stack(3, 1, 10), 38.8, 24890000, 24990000),
      FixedBand("10", Stack(3, 1, 11), 38.8, 26500000, 29700000),
      FixedBand("6", Stack(3, 1, 12), 53.0, 50000000, 54000000),
      FixedBand("4", Stack(3, 1, 13), 53.0, 70000000, 70500000),
      FixedBand("144", Stack(6, 1, 14), 53.0, 144000000, 148000000),
      FixedBand("220", Stack(3, 1, 15), 53.0, 220000000, 224980000),
      FixedBand("430", Stack(3, 1, 16), 53.0, 420000000, 450000000),
      FixedBand("902", Stack(3, 1, 17), 53.0, 902000000, 928000000),
      FixedBand("1240", Stack(3, 1, 18), 53.0, 1240000000, 1300000000),
      FixedBand("2300", Stack(3, 1, 19), 53.0, 2300000000, 2450000000),
      FixedBand("3400", Stack(3, 1, 20), 53.0, 3400000000, 3410000000),
      FixedBand("AIR", Stack(6, 1, 21), 53.0, 108000000, 137000000),
      FixedBand("WWV", Stack(6, 1, 22), 53.0, 0, 0),
      FixedBand("GEN", Stack(3, 1, 23), 53.0, 0, 0),
      XvtrSlot(24), XvtrSlot(25), XvtrSlot(26), XvtrSlot(27), XvtrSlot(28),
      XvtrSlot(29), XvtrSlot(30), XvtrSlot(31), XvtrSlot(32), XvtrSlot(33) ]
  }

  // ---------------------------------------------------------------------
  // 60 m channel tables and the region plans (band.c:438-476, 494-538)
  // ---------------------------------------------------------------------

  function ChannelsUk(): seq<Channel> {
    [Channel(5261250, 5500), Channel(5280000, 8000), Channel(5290250, 3500), Channel(5302500, 9000),
     Channel(5318000, 10000), Channel(5335500, 5000), Channel(5356000, 4000), Channel(5368250, 12500),
     Channel(5380000, 4000), Channel(5398250, 6500), Channel(5405000, 3000)]
  }

  function ChannelsVfo(): seq<Channel> {
    [Channel(5350000, 200000)]
  }

  function ChannelsWrc15(): seq<Channel> {
    [Channel(5359000, 15000)]
  }

  function ChannelsUs(): seq<Channel> {
    [Channel(5332000, 3000), Channel(5348000, 3000), Channel(5359000, 15000),
     Channel(5373000, 3000), Channel(5405000, 3000)]
  }

  function ChannelsCa(): seq<Channel> {
    [Channel(5332000, 3000), Channel(5348000, 3000), Channel(5358500, 3000),
     Channel(5373000, 3000), Channel(5405000, 3000)]
  }

  /** What a region selects for 60 m: the entry catalog with its entry count,
      and the channel table with its channel count. */
  datatype RegionPlan = RegionPlan(table: nat, entries: int, channelEntries: int, channels: seq<Channel>)

  /** The plan each known region selects; None for a value the switch does not list. */
  function RegionPlanOf(region: int): (plan: Option<RegionPlan>)
    ensures plan.Some? <==> region in {RegionVfo, RegionUK, RegionWRC15, RegionUS, RegionCA}
    ensures plan.Some? ==> plan.value.table in Tables60()
    ensures plan.Some? ==> plan.value.entries == CatalogLength(plan.value.table)
    ensures plan.Some? ==> plan.value.channelEntries == |plan.value.channels|
  {
    if region == RegionUK then Some(RegionPlan(Table60UK, UkBandstackEntries, UkChannelEntries, ChannelsUk()))
    else if region == RegionUS then Some(RegionPlan(Table60US, UsBandstackEntries, UsChannelEntries, ChannelsUs()))
    else if region == RegionVfo then Some(RegionPlan(Band60, VfoBandstackEntries, VfoChannelEntries, ChannelsVfo()))
    else if region == RegionWRC15 then Some(RegionPlan(Table60WRC15, Wrc15BandstackEntries, Wrc15ChannelEntries, ChannelsWrc15()))
    else if region == RegionCA then Some(RegionPlan(Table60CA, CaBandstackEntries, CaChannelEntries, ChannelsCa()))
    else None
  }

  /** The catalogs the 60 m bandstack may point at. */
  function Tables60(): set<nat> {
    {Band60, Table60UK, Table60US, Table60WRC15, Table60CA}
  }

  // ---------------------------------------------------------------------
  // Structural invariant of the table
  // ---------------------------------------------------------------------

  /** Band b's bandstack points at its own catalog (60 m: one of its five),
      and its entry count is that catalog's length. */
  predicate StackBound(b: int, s: Stack) {
    (if b == Band60 then s.table in Tables60() else s.table == b) &&
    s.entries == CatalogLength(s.table)
  }

  /** The shape every state of the table keeps: sizes, catalog lengths, and
      each bandstack bound to the catalog it owns. */
  predicate WellFormed(bands: seq<Band>, cats: seq<seq<Entry>>) {
    |bands| == TableSize && |cats| == CatalogCount &&
    (forall t :: 0 <= t < CatalogCount ==> |cats[t]| == CatalogLength(t)) &&
    (forall b :: 0 <= b < TableSize ==> StackBound(b, bands[b].stack))
  }

  /** The static tables are well-formed: each bandstack's declared entry count
      is the length of the array it points at. */
  lemma DefaultWellFormed()
    ensures WellFormed(DefaultBands(), DefaultCatalogs())
  {
    DefaultCatalogLengths();
    DefaultStackBounds();
  }

  lemma DefaultCatalogLengths()
    ensures forall t :: 0 <= t < CatalogCount ==> |DefaultCatalogs()[t]| == CatalogLength(t)
  {
    var cats := DefaultCatalogs();
    forall t | 0 <= t < CatalogCount ensures |cats[t]| == CatalogLength(t) {
    }
  }

  lemma DefaultStackBounds()
    ensures forall b :: 0 <= b < TableSize ==> StackBound(b, DefaultBands()[b].stack)
  {
    var bands := DefaultBands();
    forall b | 0 <= b < TableSize ensures StackBound(b, bands[b].stack) {
    }
  }

  /** Fixed bands are titled and transverter slots start empty; every titled
      band starts with a non-empty range or the [0,0] no-range sentinel. */
  lemma DefaultTitles()
    ensures forall b :: 0 <= b < TableSize ==> (DefaultBands()[b].Titled() <==> b < BandCount)
    ensures forall b :: 0 <= b < TableSize ==> DefaultBands()[b].frequencyMin <= DefaultBands()[b].frequencyMax
    ensures forall b :: 0 <= b < TableSize && DefaultBands()[b].frequencyMin == 0 ==>
      b in {BandWWV, BandGen} || b >= BandCount
  {
  }
}

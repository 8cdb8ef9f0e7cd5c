# Band table, region switch and menu rules of an SDR client, in Dafny

This project models the band bookkeeping of a software-defined-radio client
(`band.c`) together with three rules of its radio menu (`radio_menu.c`) and
the variable-filter edits of its filter menu (`filter_menu.c`), and proves
what these promise.

- `band_catalog.dfy` (`BandCatalog`) holds the static tables:
  - the bandstack entry catalogs of every band, including the five 60 m catalogs;
  - the band table: 24 fixed bands plus 10 transverter slots;
  - the 60 m channel tables and the plan each region selects.

  A bandstack's pointer into an entry array is modelled as a catalog index,
  and `WellFormed` states that each bandstack is bound to the catalog it owns.
- `band_resolver.dfy` (`BandResolver`) holds the read-only decisions:
  - which band a frequency belongs to;
  - whether the transmit set-up is legal;
  - the cyclic order in which band stepping visits the table.
- `band_persistence.dfy` (`BandPersistence`) covers save and restore against
  a property store, stated over values:
  - which names the save writes (`SavedFrom`);
  - what the restore reads back and clamps (`Restore`);
  - the round trip between the two.
- `band_state.dfy` (`BandState`) holds the live table as a class,
  `BandRegistry`, whose arrays the operations update in place:
  - region switch, save, restore;
  - the frequency search;
  - band stepping, with the VFO's veto as an oracle.

  Each method is proved against the specification functions above.
- `radio_menu.dfy` (`RadioMenu`) holds:
  - the N2ADR open-collector routines;
  - the capture-time clamp;
  - the callsign and locator acceptance rule.
- `filter_menu.dfy` (`FilterMenu`) holds the width/shift and cut edits of a
  variable filter, and the receivers that are told about them.
- `modes.dfy` (`Modes`) holds the mode and filter numbers.
- `wrappers.dfy` (`Wrappers`) holds `Option`.

Regions are numbered in the order the region selector offers them
(radio_menu.c:758-764), because that selector passes its position straight
to the region switch. The headers that define the region and mode constants
are not part of this model.

## Model

| member | source | states |
|---|---|---|
| BandCatalog.DefaultCatalogs | band.c:51-345 | the start-up bandstack entry arrays, one catalog per band and per 60 m plan, as many as the catalog numbering provides |
| BandCatalog.DefaultBands | band.c:398-434 | the start-up band table, one record per fixed band and transverter slot (its properties are `DefaultWellFormed` and `DefaultTitles`) |
| BandCatalog.RegionPlanOf | band.c:494-538 | exactly the five listed regions select a plan; a plan's 60 m catalog is one of the five 60 m tables, its entry count is that catalog's length, and its channel count is its channel table's length |
| BandCatalog.DefaultWellFormed | band.c:257-434 | in the static tables every bandstack's declared entry count is the length of the entry array it points at, and each band points at its own array |
| BandCatalog.DefaultTitles | band.c:398-434 | in the start-up table exactly the 24 fixed bands are titled; every range has min <= max; only WWV, GEN and the transverter slots start at the [0, 0] no-range sentinel |
| BandResolver.FirstMatch | band.c:657-668 | the first titled band in the index range whose closed range holds f, or -1 when no band in the range does |
| BandResolver.Fallback | band.c:694-708 | with no match the result is WWV exactly when f is within 1 kHz of one of the six time-signal carriers, general coverage otherwise |
| BandResolver.FallbackCases | band.c:694-708 | the 1 kHz window is closed at both ends and one hertz beyond it is general coverage |
| BandResolver.BandFromFrequency | band.c:649-711 | always a valid index; a matching transverter slot wins over any fixed band; otherwise, inside the radio's range, the first matching fixed band; outside the radio's range fixed bands are not searched; a result that does not hold f is the fallback |
| BandResolver.ZeroRangeSlotClaimsZero | band.c:674-683 | a titled transverter slot left at [0, 0] claims frequency 0, whatever the radio covers |
| BandResolver.TxSpan | band.c:779-792 | the edges of the transmitted signal: the carrier alone in CWU and CWL, otherwise the carrier plus the low and plus the high transmit filter edge |
| BandResolver.TransmitAllowed | band.c:750-797 | never without a transmitter; always when out-of-band transmit is on; never on GEN, WWV or AIR; otherwise exactly when both edges of the signal lie in the band |
| BandResolver.TransmitSpanInside | band.c:779-794 | an allowed transmission keeps every frequency of its span inside the band, and a non-empty span that fits is allowed |
| BandResolver.TransmitCwIgnoresFilter | band.c:779-786 | in CW only the carrier has to be inside the band, whatever the filter |
| BandResolver.WalkMod | band.c:807-809 | k single steps up add k modulo the table size, and k steps down subtract k |
| BandResolver.TitledWalkCycle | band.c:805-828 | over one full cycle the stepping loop offers every titled band, each exactly once |
| BandResolver.NextTitledMeetsOne | band.c:805-828 | the single steps of one band step meet exactly one titled band, the one landed on |
| BandResolver.FirstTitledIsNext | band.c:805-828 | the first titled band the walk reaches from a titled band is its titled neighbour in that direction |
| BandResolver.NextTitled | band.c:805-828 | the band one band step lands on when the VFO takes it: always a titled band of the table (which one is stated by `FirstTitledIsNext` and `NextTitledMeetsOne`) |
| BandResolver.StepBack | band.c:799-859 | band_minus undoes band_plus and band_plus undoes band_minus, when the VFO takes every band |
| BandResolver.StepTimes | band.c:799-828 | k successive band steps in one direction, each landing on a titled band |
| BandResolver.StepTimesWalk | band.c:805-828 | k band steps stand as many single steps out as they took, and meet exactly k titled bands on the way |
| BandResolver.FullWalkLength | band.c:805-828 | one full cycle of single steps meets as many titled bands as the table holds |
| BandResolver.StepCycle | band.c:799-828 | stepping through all titled bands in one direction comes back to a titled start band, and no smaller positive number of band steps does |
| BandPersistence.SavedFrom | band.c:540-582 | the store a save leaves: every name the save writes for a titled band holds that band's value, every other name keeps what it held (a predicate; no contract) |
| BandPersistence.SavedFromUnique | band.c:540-582 | the store the save leaves is determined by the store it started from and the band table |
| BandPersistence.SaveIdempotent | band.c:540-582 | saving the same table twice leaves the store the first save left |
| BandPersistence.ReadBand | band.c:585-611 | each persisted integer field, the PA calibration and (for transverter slots only) the title are read from the store; a missing name keeps the old value; fields that are not persisted, and the bandstack's shape, are unchanged |
| BandPersistence.ReadEntry | band.c:613-624 | each of the eight fields of a bandstack slot is read from the store under that band and slot, or kept when absent |
| BandPersistence.OwnerOfBand | band.c:613-615 | in a well-formed table a catalog belongs to band b exactly when b's bandstack points at it |
| BandPersistence.RestoredCatalog | band.c:613-624 | a catalog keeps its length through the restore |
| BandPersistence.ClampBand | band.c:627-646 | a current entry at or beyond the entry count becomes 0 (a negative one is kept), a transmit antenna outside 0..2 becomes 0, the PA calibration is clamped to [38.8, 70.0], and nothing else changes |
| BandPersistence.ClampBandSane | band.c:627-646 | after the clamps the band is within all three ranges, and a band already within them is left alone |
| BandPersistence.Restore | band.c:584-647 | the restore leaves the same numbers of bands and catalogs |
| BandPersistence.RestoreSane | band.c:584-647 | the restore keeps the table well-formed, leaves every band within the clamp ranges, and never changes a fixed band's title |
| BandPersistence.RestoreEmpty | band.c:584-647 | restoring from an empty store changes no catalog and only clamps the bands |
| BandPersistence.Carry | band.c:540-647 | the band a round trip should give: persisted fields and calibration from the saved band, a transverter slot's title from the saved band, everything else from the destination |
| BandPersistence.ReadBackBand | band.c:585-611 | reading a band whose fields the store holds gives the carried band |
| BandPersistence.ReadSavedEntries | band.c:613-624 | reading slots the store holds gives the saved slots back |
| BandPersistence.SaveRestoreRoundTrip | band.c:540-647 | restoring what a save wrote gives a titled band its saved persisted fields (clamped) and its bandstack catalog exactly as saved, provided only that this band's bandstack points at the same catalog at both ends; the 60 m plan may differ |
| BandPersistence.SaveRestoreExact | band.c:540-647 | for a titled band already within the clamp ranges, whose bandstack points at the same catalog at both ends, every persisted field, the calibration and a transverter slot's title come back unchanged |
| BandState.Rebind60 | band.c:494-538 | an unknown region leaves the table alone; a known one binds the 60 m bandstack to the region's catalog with entry 0 current |
| BandState.Rebind60WellFormed | band.c:494-538 | selecting a region keeps the table well-formed, changes only the 60 m bandstack (every band other than 60 m, and every other field of the 60 m record, is unchanged), and for a known region makes its first entry current |
| BandState.Rebind60Idempotent | band.c:494-538 | selecting the same region twice is selecting it once |
| BandState.Rebind60LastWins | band.c:494-538 | of two successive region selections only the second counts when it is a known region |
| BandState.WriteBandFields | band.c:547-567 | the band-level writes of the save: exactly the persisted integer fields of that band, every other name untouched |
| BandState.WriteEntry | band.c:569-580 | the eight writes for one bandstack slot, every other name untouched |
| BandState.SaveBand | band.c:541-581 | one pass of the save loop: nothing for an untitled band; otherwise the band's persisted fields, title, calibration and every bandstack slot, and no other name |
| BandState.BandRegistry.constructor | band.c:398-434 | the registry starts with the static tables, well-formed, with no channel table active |
| BandState.BandRegistry.BandAt | band.c:489-492 | exactly band b's record, whose bandstack is bound to its own catalog with that catalog's length |
| BandState.BandRegistry.BandstackOf | band.c:484-486 | band b's bandstack and exactly the catalog it points at, as many entries as it declares |
| BandState.BandRegistry.ChangeRegion | band.c:494-538 | records the region; for a known region rebinds the 60 m bandstack and selects the region's channel table; an unknown region changes neither |
| BandState.BandRegistry.SaveState | band.c:540-582 | the store after the loop is the saved store of the current table (`SavedFrom`) |
| BandState.BandRegistry.RestoreState | band.c:584-647 | the table after the read and clamp loops is `Restore` of the table before, and stays valid |
| BandState.BandRegistry.ReadState | band.c:585-625 | the read loop reads every band, titled or not, and every slot its bandstack declares |
| BandState.BandRegistry.ReadBandState | band.c:585-624 | one pass of the read loop: the band record and its own catalog's slots, nothing else |
| BandState.BandRegistry.ReadSlots | band.c:613-624 | the slot loop reads the first n slots of one catalog and leaves the others alone |
| BandState.BandRegistry.ClampState | band.c:627-646 | the clamp loop applies the four clamps to every band |
| BandState.BandRegistry.GetBandFromFrequency | band.c:649-711 | the two search loops and the fallback compute `BandFromFrequency` of the current table |
| BandState.BandRegistry.BandStep | band.c:799-859 | the bands offered are the titled bands met step by step; every one but the last was refused; it stops on the last one offered, which was taken, or after a full cycle with nothing taken |
| BandState.StepOutcome | band.c:799-859 | only titled bands are offered; a step lands exactly when the last band offered is taken; landing nowhere means every titled band was offered and refused; a VFO that takes every band lands on the next titled band |
| RadioMenu.N2adrMask | radio_menu.c:234-261 | n2adr_oc_settings writes a mask to exactly the ten HF bands 160 m to 10 m |
| RadioMenu.N2adrTxMasks | radio_menu.c:263-304 | n2adr_oc_settings_tx writes to exactly the same ten bands |
| RadioMenu.N2adrMaskLayout | radio_menu.c:239-259 | each mask selects one low-pass filter (bits 0-5); the high-pass bit is set on all HF bands except 160 m; a higher band never selects a lower low-pass filter |
| RadioMenu.OcSettings | radio_menu.c:234-261 | the table n2adr_oc_settings leaves, of the same size (its values are stated by `OcSettingsValues`, the rest by `OcSettingsFrame`, `OcSettingsTxAgrees` and `OcSettingsIdempotent`) |
| RadioMenu.OcSettingsTx | radio_menu.c:263-304 | the table n2adr_oc_settings_tx leaves for an HPF setting, of the same size (stated by the same four lemmas) |
| RadioMenu.OcSettingsValues | radio_menu.c:234-304 | n2adr_oc_settings gives each of the ten HF bands its mask in both OCrx and OCtx; n2adr_oc_settings_tx gives each the same mask in OCtx, 1 on 160 m included |
| RadioMenu.OcSettingsFrame | radio_menu.c:234-304 | both routines leave 136 kHz, 472 kHz, 6 m and up and the transverter slots untouched, change nothing but OCrx and OCtx, and keep the table well-formed |
| RadioMenu.OcSettingsTxAgrees | radio_menu.c:263-304 | both routines write the same OCtx to every band; the transmit variant gives 160 m OCrx 0 and gives 80 m to 10 m OCrx 64 exactly when the HPF is enabled, 0 otherwise |
| RadioMenu.OcSettingsIdempotent | radio_menu.c:234-304 | running either routine twice is running it once |
| RadioMenu.N2adrOcSettings | radio_menu.c:234-261 | the ten in-place writes give `OcSettings` of the table, and the registry stays valid |
| RadioMenu.N2adrOcSettingsTx | radio_menu.c:263-304 | the ten in-place writes give `OcSettingsTx` of the table for the given HPF setting, and the registry stays valid |
| RadioMenu.ClampCaptureTime | radio_menu.c:131-132 | the capture time lies in [10, 120] s, equals the request inside that range, and is the nearer bound outside it |
| RadioMenu.ClampCaptureTimeOrder | radio_menu.c:131-140 | the clamp is idempotent and monotone, and the buffer always holds 480000 to 5760000 samples |
| RadioMenu.Capture.CaptureTimeChanged | radio_menu.c:129-151 | stops playback when transmitting and capture otherwise; allocates a fresh buffer of clamp(t) * 48000 samples; resets both positions to 0 and the state to CAP_INIT |
| RadioMenu.CLength | radio_menu.c:529 | strlen: the number of bytes before the first NUL byte; every byte before it is non-NUL and the byte at it is NUL |
| RadioMenu.AsciiUpperByte | radio_menu.c:532 | only the bytes of 'a' to 'z' change, each to its capital; every other byte, those of multibyte UTF-8 characters included, is kept |
| RadioMenu.AsciiUpper | radio_menu.c:532 | upper-casing keeps the byte length and maps each byte on its own |
| RadioMenu.AsciiUpperIdempotent | radio_menu.c:532 | an upper-cased string has no lower-case ASCII letter, gains no NUL, and upper-casing it again changes nothing |
| RadioMenu.Accepts | radio_menu.c:529-531 | a text is taken exactly when there is one and its strlen in bytes is at least 3 and below the buffer size (a predicate; no contract) |
| RadioMenu.AcceptsCountsBytes | radio_menu.c:529-531 | the limit counts UTF-8 bytes: a nine-character text with one two-byte letter is refused by a ten-byte buffer and taken by an eleven-byte one |
| RadioMenu.OwnText.ButtonClicked | radio_menu.c:526-564 | a text with 3 <= strlen < buffer size is stored upper-cased and stays in the entry box; any other text, or none, leaves the setting unchanged and resets the box to it; the setting always fits its buffer |
| RadioMenu.StoredTextAccepted | radio_menu.c:531-533 | an accepted setting is itself accepted, and entering it again stores the same value |
| FilterMenu.Half | filter_menu.c:218-220 | C's division by 2 truncates toward zero: the remainder takes the sign of the dividend |
| FilterMenu.HalfTwice | filter_menu.c:218-220 | twice half of w is w exactly when w is even; halving commutes with negation |
| FilterMenu.WidthEdit | filter_menu.c:207-234 | the low spin button's edit: in the width/shift modes the width becomes twice half of val; in the sideband modes the cut it does not set is kept |
| FilterMenu.WidthEditKeepsCentre | filter_menu.c:208-221 | in CWL/CWU/DSB/AM/SAM/SPEC/DRM the width edit keeps low + high at twice the truncated centre; the new width is 2 * trunc(val / 2), which is val exactly when val is even |
| FilterMenu.WidthEditSideband | filter_menu.c:223-234 | in LSB/DIGL only high changes, to -val; in USB/DIGU only low changes, to val; in any other mode the filter is unchanged |
| FilterMenu.ShiftEdit | filter_menu.c:262-298 | the high spin button's edit: in the width/shift modes the width becomes twice half of the old width; in the sideband modes the cut it does not set is kept |
| FilterMenu.ShiftEditKeepsWidth | filter_menu.c:263-285 | the shift edit centres the filter on val (on -val in CWL, the mirror of CWU); the new width is 2 * trunc(width / 2), so the width is kept exactly when it was even |
| FilterMenu.ShiftEditSideband | filter_menu.c:287-298 | in LSB/DIGL only low changes, to -val; in USB/DIGU only high changes, to val; in any other mode the filter is unchanged |
| FilterMenu.SidebandEditsCommute | filter_menu.c:223-298 | in the sideband modes the two spin buttons set independent edges, so the order of the two edits does not matter |
| FilterMenu.NotifiedExactly | filter_menu.c:241-245 | a receiver is notified exactly when its index is below the receiver count and its VFO uses the edited slot, each once, in increasing order |
| FilterMenu.NotifyReceivers | filter_menu.c:241-245 | the loop notifies the receivers `Notified` lists |
| FilterMenu.VarSpinLow | filter_menu.c:198-247 | the active mode's filter in the edited slot becomes `WidthEdit` of itself, no other filter of any mode changes, and the receivers using the slot are notified |
| FilterMenu.VarSpinHigh | filter_menu.c:253-311 | the active mode's filter in the edited slot becomes `ShiftEdit` of itself, no other filter changes, and the receivers using the slot are notified |

## Left out

- The property file itself, and the typed `SetProp`/`GetProp` helpers, are not modelled. The store is three maps from typed names to integers, reals and strings. A name that is missing or unparsable leaves the field unchanged. Number formatting and parsing are not modelled.
- Fixed-width integers are not modelled: `long long` frequencies and `int` fields are unbounded here, so overflow in `f - 2500000`, in `t * 48000` and in the filter arithmetic is not captured. Nor are the unsigned-char OC fields; every mask written fits them.
- The constant values in the headers are not part of this model. Region numbers follow the region selector's order. Mode and filter numbers only need to be distinct.
- The size of the callsign and locator buffers comes from a header that is not part of this model. `OwnText` takes it as a parameter.
- The entry boxes' own length limit in characters (set where the menu is built) is not modelled: any byte string may reach the button callback, and the model decides by its UTF-8 byte length as `strlen` does.
- The `__REG1__` variant of the static tables is not modelled; only the default variant is.
- `getFrequencyInfo` is compiled out (`#if 0`) and is not modelled.
- The global VFO state, `radio->frequency_min/max`, `can_transmit`, `tx_out_of_band_allowed`, the transmit filter edges, `n2adr_hpf_enable`, the active receiver and the receiver count are all passed in as parameters.
- The initial value of the global `region` is a constructor parameter, since it is set outside band.c.
- BandState.BandRegistry.BandStep: `vfo_band_changed` is an oracle `accept` saying whether the VFO stands on the offered band afterwards. Its effect on the VFO is not modelled. A refusal that leaves the VFO where it was is still covered: the VFO then stands on its start band when that band is offered again, so `accept` holds there and the step stops on the start band after one cycle. Only when the VFO stands on none of the titled bands offered to it, the start band included, does the source loop forever; the model stops after one full cycle and returns None for that case alone.
- BandResolver.StepBack: the round trip is stated for the step that lands on the next titled band, i.e. when the VFO takes every band. With refusals the landing band depends on the oracle. `StepCycle` is stated under the same condition.
- RadioMenu.Capture.CaptureTimeChanged: `radio_end_playback`, `radio_end_capture`, `g_free` and `t_print` are reduced to which collaborator is stopped. The capture states other than CAP_INIT belong to the record/replay machinery, which is not part of this model.
- RadioMenu.Capture.constructor: the capture globals are initialised elsewhere. The model starts with no buffer and size 0.
- `schedule_high_priority`, `rx_filter_changed`, `g_idle_add(ext_vfo_update)`, `cleanup` and all GTK calls are side effects on other subsystems. The model reduces them to the list of receivers notified and the text the entry box shows.
- `load_filters` and `n2adr_hpf_btn_cb` choose which OC routine runs from the device type. That device dispatch is not modelled.
- BandPersistence.ClampBand: `pa_calibration` is a C `float`, modelled as a `real`. A NaN read back from the store fails both comparisons and stays unclamped in C, and float rounding is not captured, so `ClampBandSane` and `RestoreSane`'s "within the clamp ranges" hold for the real-valued model only.
- Title buffers have a fixed size in C; titles here are unbounded strings.
- main.c, the menus' window construction and every other callback are not modelled.

# Equalizer control-panel plugin: band gains, store and presets

This project models the logic underneath the widgets of the Hildon equalizer
control-panel plugin (`equalizer/mafw-equalizer.c`). That logic moves ten band
gains between three places:

- the slider array, an `array<real>` of `NUM_BANDS` = 10 slots;
- the gconf configuration store, a `Config.Client` whose `entries` map holds
  one float per key. The key of band N is `<GCONF_MAFW_GST_EQ_RENDERER>/band<N>`;
- the preset directory, a `PresetDir.Directory` whose `files` map takes a file
  name to the XML tree it parses to (`None` when it does not parse). A
  `Presets.Doc` is such a tree together with the preset name, and its root's
  children are `Presets.Node`s, each with a name, an optional `num` attribute
  and text content.

What is proved:

- Reading a band clamps it into [-24.0, +12.0]. Writing a band changes exactly
  that band's key. A write followed by a read gives the value back when it is
  in range, and the nearer bound otherwise.
- A change notification updates exactly the slider it names, or none.
- `%d` followed by `sscanf("%d")` gives the number back.
- `%.1f` followed by `atof` gives the gain rounded to tenths, ties to even.
- Saving a preset and loading it sets exactly the keys band0 … band9, each to
  its slider's value rounded to one decimal. Every other key keeps its value.
- Listing the directory gives every file that parses, once, sorted by
  collated name.
- The preset dialog returns the last listed preset whose name collates equal
  to the picked text. "Save as" overwrites an existing preset only after a
  yes, and "Delete" removes a file only after a yes.

Modules: `Wrappers` (Option), `Text` (`%d`, `sscanf`, `atof`), `Gains`
(clamping and the one-decimal text form), `Config` (store and sliders),
`Presets` (documents, save tree, load), `PresetDir` (the directory, listing,
saving) and `Selection` (the dialog and the Open, Save as and Delete buttons).

Two behaviours of the code worth knowing:

- `preset_load` does not parse or range-check `num`
  (`equalizer/mafw-equalizer.c`, lines 215-225). A node with `num="15"` writes
  the key `band15`. `Presets.OtherNumsIgnored` proves that such a key never
  changes what bands 0 … 9 read.
- `presets_preload_all` returns an empty list when the preset directory
  cannot be opened (lines 168-171). No error is reported.

## Model

| member | source | states |
|---|---|---|
| Config.GetBandValue | equalizer/mafw-equalizer.c:74-90 | A band outside [0, NUM_BANDS) gives 0.0 without reading the store. Otherwise the band's stored float, with a missing key read as 0.0, is clamped: it is returned unchanged when in [EQ_GAIN_MIN, EQ_GAIN_MAX], and the nearer bound when outside. The result is always in range. |
| Gains.Clamp | equalizer/mafw-equalizer.c:89 | The CLAMP macro: the result lies in [low, high], equals x inside it, and is the crossed bound outside it. |
| Config.Client.SetFloat | equalizer/mafw-equalizer.c:107 | `gconf_client_set_float`: exactly that key takes the value, unclamped. |
| Config.Client.UpdateBand | equalizer/mafw-equalizer.c:94-109 | The slider's band key takes the slider's value. Every other key reads as before. |
| Config.UpdateThenRead | equalizer/mafw-equalizer.c:85-89 | After band b is written, reading b gives the value clamped, or exactly the value when it is in range. Reading any other band gives what it gave before. |
| Config.BandKeyInjective | equalizer/mafw-equalizer.c:85 | Two bands with the same key are the same band. |
| Config.BandKeyOfSuffix | equalizer/mafw-equalizer.c:218-221 | The prefix plus a suffix is band b's key exactly when the suffix is the decimal text of b. |
| Config.NotifiedBandOfBandKey | equalizer/mafw-equalizer.c:140 | Scanning a band's own key with `"<namespace>/band%d"` gives back that band. |
| Config.SliderGain | equalizer/mafw-equalizer.c:142-143 | A notified value is clamped to [-24.0, +12.0]. A missing value gives 0.0. |
| Config.UpdateSlider | equalizer/mafw-equalizer.c:126-146 | When the scanned band is below NUM_BANDS, exactly that slider changes, to the notified gain. Otherwise no slider changes. Only the upper bound is checked. |
| Text.NatToString | equalizer/mafw-equalizer.c:85 | `%d` of a natural is a non-empty run of digits with no leading zero. |
| Text.IntToString | equalizer/mafw-equalizer.c:85 | `%d` of an integer is non-empty and starts with '-' exactly when the integer is negative. |
| Text.NatToStringValue | equalizer/mafw-equalizer.c:85 | The digits `%d` prints read back as the number printed. |
| Text.NatToStringInjective | equalizer/mafw-equalizer.c:85 | Different naturals print differently. |
| Text.IntToStringInjective | equalizer/mafw-equalizer.c:85 | Different integers print differently. |
| Text.DigitsOfRun | equalizer/mafw-equalizer.c:140 | Reading digits then more text is reading the digits, then going on from their value. |
| Text.ScanIntOfIntToString | equalizer/mafw-equalizer.c:140 | `sscanf("%d")` of `printf("%d", i)` gives i, for every integer i. |
| Text.MagnitudeOfRun | equalizer/mafw-equalizer.c:223 | `atof` reads a run of digits before the point as their value, then goes on. |
| Gains.Tenths | equalizer/mafw-equalizer.c:251-253 | The tenths `%.1f` prints are within half a tenth of the value, and a tie goes to the even tenth. |
| Gains.Rounded | equalizer/mafw-equalizer.c:251-253 | A printed and re-read gain is within 0.05 of the gain. |
| Gains.MagnitudeOneDecimal | equalizer/mafw-equalizer.c:223 | `atof` reads "W.D" as W + D/10. |
| Gains.AtofOneDecimal | equalizer/mafw-equalizer.c:223 | `atof` reads "-W.D" and "W.D" as the signed value. |
| Gains.AtofFormatGain | equalizer/mafw-equalizer.c:251-253 | `atof` of the `%.1f` text of a gain is the gain rounded to tenths, for every gain. |
| Gains.RoundedInRange | equalizer/mafw-equalizer.c:251-253 | Rounding a gain in [EQ_GAIN_MIN, EQ_GAIN_MAX] keeps it in that range. |
| Gains.RoundedIdempotent | equalizer/mafw-equalizer.c:251-253 | Saving a loaded value again changes nothing. |
| Presets.SavedRootShape | equalizer/mafw-equalizer.c:247-261 | The saved tree is an `equalizer` root with exactly NUM_BANDS `band` children in band order. Child i has `num` "i" and text that `atof` reads as slider i rounded to tenths. |
| Presets.ApplyBandsStep | equalizer/mafw-equalizer.c:212-231 | Loading one more node sets that node's key, if it writes one, and changes nothing else. |
| Presets.PresetLoad | equalizer/mafw-equalizer.c:195-233 | Walks the root's children in document order. Every `band` child with a `num` sets the prefix followed by that `num` to `atof` of its text. Nothing else changes. |
| Presets.ApplyBandsFrame | equalizer/mafw-equalizer.c:213-229 | A key that no child writes keeps its entry, or stays absent. |
| Presets.BandKeyBelow | equalizer/mafw-equalizer.c:250 | Band b's key is among the keys of bands below any count greater than b. |
| Presets.LoadSavedStep | equalizer/mafw-equalizer.c:250-261 | Loading child i of a saved tree sets band i's key to slider i rounded. |
| Presets.SetOtherBand | equalizer/mafw-equalizer.c:224-225 | Setting one band's key leaves another band's entry unchanged. |
| Presets.LoadSavedValues | equalizer/mafw-equalizer.c:215-231 | Loading the first n children of a saved tree sets bands 0 … n-1 to their rounded slider values. |
| Presets.LoadSavedKeys | equalizer/mafw-equalizer.c:215-231 | Loading the first n children of a saved tree adds exactly the keys of bands 0 … n-1. |
| Presets.LoadAfterSave | equalizer/mafw-equalizer.c:210-232 | Loading a saved preset sets exactly the keys band0 … band9. Band i takes slider i rounded to tenths. Every other key keeps its value. |
| Presets.SavedChildKey | equalizer/mafw-equalizer.c:254-259 | Child i of a saved tree writes band i's key. |
| Presets.LoadSavedOther | equalizer/mafw-equalizer.c:210-232 | Loading a saved tree leaves every key other than the band keys as it was, present or absent. |
| Presets.LoadAfterSaveReadsBack | equalizer/mafw-equalizer.c:74-90 | After saving the sliders and loading the preset, each band reads back as its slider value rounded, then clamped. An in-range slider reads back as its rounded value. |
| Presets.OtherNumsIgnored | equalizer/mafw-equalizer.c:215-221 | Nodes whose `num` is not exactly band b's decimal text ("15", "05", " 5") never change what band b reads. |
| PresetDir.InsertPermutes | equalizer/mafw-equalizer.c:187-189 | Inserting adds exactly the one document. |
| PresetDir.InsertSorted | equalizer/mafw-equalizer.c:149-155 | Inserting into a list sorted by `sort_xmldoc` keeps it sorted. |
| PresetDir.SortByNameSorted | equalizer/mafw-equalizer.c:187-189 | After the sort, names never decrease in collated order. |
| PresetDir.SortByNamePermutes | equalizer/mafw-equalizer.c:187-189 | The sort keeps exactly the documents it was given, with their multiplicities. |
| PresetDir.ParsedEntriesExactly | equalizer/mafw-equalizer.c:173-182 | The read loop keeps exactly the entries read that parse, each carrying its file name and tree. |
| PresetDir.ParsedEntriesOnce | equalizer/mafw-equalizer.c:173-182 | When every entry is read once, every document is kept at most once. |
| PresetDir.ListedPresets | equalizer/mafw-equalizer.c:159-192 | An unreadable directory lists nothing. Otherwise the list is sorted by collated name, holds exactly the files that parse, and holds each once. |
| PresetDir.Directory.PreloadAll | equalizer/mafw-equalizer.c:159-192 | Returns the directory's listing: the parsed entries, prepended in reading order, then sorted. An unreadable directory gives an empty list. |
| PresetDir.Directory.PresetSave | equalizer/mafw-equalizer.c:237-267 | Fills the document with the tree built from the sliders and writes it under the preset's name. No other file changes. |
| PresetDir.Directory.Unlink | equalizer/mafw-equalizer.c:462-464 | Removes the named file, if it exists. No other file changes. |
| Selection.LastMatchIndex | equalizer/mafw-equalizer.c:361-371 | Gives the position of a preset that collates equal to the name, with none after it, or -1 when there is none. |
| Selection.MatchingFound | equalizer/mafw-equalizer.c:361-371 | A match is a preset of the list with that collated name. No match means that no preset of the list has it. |
| Selection.MatchingListed | equalizer/mafw-equalizer.c:314-371 | A match against the listing is a parsed file whose name collates equal to the text. No match means the directory is unreadable, or no parsed file has that collated name. |
| Selection.ChoosePreset | equalizer/mafw-equalizer.c:303-391 | With no presets and a NULL `allow_new`, or a dismissed dialog, gives nothing and leaves `allow_new` alone. With new names allowed, a match gives the matching preset and flags it existing, and no match gives a new empty document of that name flagged new. Otherwise gives the match, if any. |
| Selection.ListedHaveRoots | equalizer/mafw-equalizer.c:176-180 | Every listed preset has a root element. |
| Selection.Open | equalizer/mafw-equalizer.c:394-404 | Loads the matched preset into the store. With no match, the store is unchanged. |
| Selection.SaveAs | equalizer/mafw-equalizer.c:407-442 | A picked name that matches no listed preset is saved under that name. A match is saved under its own name, and only on a yes. A dismissed dialog or a no writes nothing. |
| Selection.SaveAsTargetSafe | equalizer/mafw-equalizer.c:416-440 | The written name collates equal to the picked one. A parsed preset in a readable directory is overwritten only after a yes. Nothing is written only when the dialog was dismissed or the answer was no. |
| Selection.DeletePreset | equalizer/mafw-equalizer.c:445-470 | Unlinks the matching listed preset's file on a yes, and changes nothing otherwise. |
| Selection.DeleteTargetSafe | equalizer/mafw-equalizer.c:452-466 | Only a parsed preset whose name collates equal to the picked one is removed, and only after a yes. A confirmed pick that some parsed preset matches always removes one. |
| Selection.SavedIsListed | equalizer/mafw-equalizer.c:264-265 | After a preset file is written, listing the directory shows it with the saved tree. |
| Selection.DeletedIsNotListed | equalizer/mafw-equalizer.c:462-464 | After a preset file is removed, no listed preset has its name. |

## Left out

- GTK and Hildon widgets are not modelled: their construction, the labels (`update_label_cb`), the banner, `dialog_confirm` and the picker. The picked text (`None` for a dismissed dialog or no selection) and the yes/no answer are parameters.
- The gconf client is a `Config.Client` object holding a map. Its lazy global initialisation, the notification registration and removal, and typed gconf values are not modelled. A notified value is an `Option<real>`.
- libxml is not modelled. The directory maps file names to the tree a file parses to, and `None` stands for a file `xmlReadFile` rejects. Whitespace text nodes appear as ordinary children whose name is not `band`. `xmlNodeGetContent` is the node's `content`. Write failures of `xmlSaveFile` and `g_unlink` are not modelled: both always succeed.
- The order in which `g_dir_read_name` yields entries is a parameter, `order`. The lemmas require it to list every file exactly once.
- `g_utf8_collate` is a parameter `collate`. The lemmas assume it is a total preorder: reflexive, total, transitive, and with symmetric equality. Locale rules are not modelled. `g_list_sort` is modelled as a stable insertion sort. Any stable sort by the same comparator gives the same list.
- Gains are reals, so binary floating point is not modelled. `%.1f` rounds the exact value to tenths with ties to even. A negative gain is printed with its '-', including when it rounds to "-0.0". Reading back loses the sign of zero, because reals have no -0.0. `atof` reads white space, a sign, digits, and an optional fraction. Exponents, hexadecimal, infinities and NaN are not modelled.
- Gains.Rounded: states only a bound (within 0.05 of the gain). The exact value is given by its body and used by the round-trip lemmas.
- Config.UpdateSlider: requires the scan to succeed and the band number to be in [0, INT_MAX]. A failed `sscanf` leaves `band_number` uninitialised, and a negative band indexes outside the slider array. Both are undefined behaviour in `update_slider_cb`.
- Presets.PresetLoad: requires a document with a root, because `preset_load` dereferences the root unchecked. `Selection.Open`, its only caller, passes listed presets, and those always have one (`Selection.ListedHaveRoots`).
- Text.ScanInt: no 32-bit overflow for band numbers beyond INT_MAX, which is undefined behaviour for `%d`.
- Config.Client.SetFloat: every write succeeds. gconf key validation (`gconf_valid_key` refuses, for example, a space, '+', non-ASCII characters or a trailing '/') and write failures of the store are not modelled. So `Presets.ApplyBands` also stores keys such as "<namespace>/band 5" that gconf would refuse. Keys written from saved presets are digit strings and always valid.
- Locale is not modelled for numbers: `%.1f` and `atof` are read in the C locale, with '.' as the decimal separator. In the control panel, GTK sets the user's locale, and a comma locale writes "-3,5". `Gains.AtofFormatGain` therefore describes saving and loading under the same LC_NUMERIC with '.' as separator. A file saved under one separator and read under the other is not modelled.
- `gtk_range_set_value` clamping a slider to its adjustment is not modelled. The sliders take exactly the gains the callbacks compute.
- `GCONF_MAFW_GST_EQ_RENDERER`, `EQ_GAIN_MIN` and `EQ_GAIN_MAX` come from `constants.h`, which is not part of this model. The namespace is a stand-in string, since only its role as a common prefix matters. The gain bounds are taken as -24.0 and +12.0, the literals `update_slider_cb` clamps to.
- Memory management, the leak of the hidden picker dialog, and the host entry points `execute` and `save_state` are not modelled.
- Preset names are not sanitised, as in the C code. Names containing '/' are ordinary map keys here.

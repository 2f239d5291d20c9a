/** Preset documents: the XML tree a preset file holds, the tree `preset_save`
    builds from the sliders, and `preset_load`, which copies a tree's band
    nodes into the configuration store. */
module Presets {
  import opened Wrappers
  import opened Text
  import opened Gains
  import opened Config

  const ROOT_TAG: string := "equalizer"
  const BAND_TAG: string := "band"

  /** A child of the root: its name, its `num` attribute if it has one, and
      its text content. */
  datatype Node = Node(name: string, num: Option<string>, content: string)

  /** A root element and its children, in document order. */
  datatype Element = Element(name: string, children: seq<Node>)

  /** A document with the preset name attached; `root` is None for a
      document just created and not yet filled. */
  datatype Doc = Doc(name: string, root: Option<Element>)

  /** The node `preset_save` writes for band `band`. */
  function BandNode(band: nat, gain: real): Node
  {
    Node(BAND_TAG, Some(IntToString(band)), FormatGain(gain))
  }

  /** The tree `preset_save` builds from the slider values. */
  function SavedRoot(gains: seq<real>): Element
    requires |gains| == NUM_BANDS
  {
    Element(ROOT_TAG, seq(NUM_BANDS, i requires 0 <= i < NUM_BANDS => BandNode(i, gains[i])))
  }

  /** A saved tree is an `equalizer` root with exactly NUM_BANDS `band`
      children in band order; child i has `num` "i" and text that `atof`
      reads back as slider i rounded to one decimal. */
  lemma SavedRootShape(gains: seq<real>)
    requires |gains| == NUM_BANDS
    ensures SavedRoot(gains).name == ROOT_TAG
    ensures |SavedRoot(gains).children| == NUM_BANDS
    ensures forall i | 0 <= i < NUM_BANDS ::
              var node := SavedRoot(gains).children[i];
              && node.name == BAND_TAG
              && node.num == Some(IntToString(i))
              && Atof(node.content) == Rounded(gains[i])
  {
    forall i | 0 <= i < NUM_BANDS
      ensures Atof(SavedRoot(gains).children[i].content) == Rounded(gains[i])
    {
      AtofFormatGain(gains[i]);
    }
  }

  /** The key `preset_load` writes for a node: only a `band` node with a
      `num` attribute writes, to the band prefix followed by that attribute
      as it stands (it is not range-checked). */
  function WrittenKey(node: Node): Option<string>
  {
    if node.name == BAND_TAG && node.num.Some? then Some(BAND_PREFIX + node.num.value) else None
  }

  /** The store after `preset_load` has gone through `nodes` in order. */
  function ApplyBands(entries: map<string, real>, nodes: seq<Node>): map<string, real>
  {
    if nodes == [] then entries
    else
      var before := ApplyBands(entries, nodes[..|nodes| - 1]);
      var last := nodes[|nodes| - 1];
      match WrittenKey(last)
      case None => before
      case Some(key) => before[key := Atof(last.content)]
  }

  /** One more node: the store after the first i + 1 nodes is the store after
      the first i, with node i's key set when it writes one. */
  lemma ApplyBandsStep(entries: map<string, real>, nodes: seq<Node>, i: nat)
    requires i < |nodes|
    ensures ApplyBands(entries, nodes[..i + 1]) ==
              match WrittenKey(nodes[i])
              case None => ApplyBands(entries, nodes[..i])
              case Some(key) => ApplyBands(entries, nodes[..i])[key := Atof(nodes[i].content)]
  {
    assert nodes[..i + 1][..i] == nodes[..i];
  }

  /** `preset_load`: walks the root's children in document order and, for
      every `band` child with a `num` attribute, sets that key to `atof` of
      the child's text. The document must have a root; `preset_load` would
      dereference a missing one. */
  method PresetLoad(client: Client, preset: Doc)
    requires preset.root.Some?
    modifies client
    ensures client.entries == ApplyBands(old(client.entries), preset.root.value.children)
  {
    var children := preset.root.value.children;
    var i := 0;
    while i < |children|
      invariant 0 <= i <= |children|
      invariant client.entries == ApplyBands(old(client.entries), children[..i])
    {
      var node := children[i];
      ApplyBandsStep(old(client.entries), children, i);
      var key := WrittenKey(node);
      if key.Some? {
        client.SetFloat(key.value, Atof(node.content));
      }
      i := i + 1;
    }
    assert children[..|children|] == children;
  }

  /** Keys that no node writes keep their entry (or their absence). */
  lemma {:induction false} ApplyBandsFrame(entries: map<string, real>, nodes: seq<Node>, key: string)
    requires forall i | 0 <= i < |nodes| :: WrittenKey(nodes[i]) != Some(key)
    ensures key in ApplyBands(entries, nodes) <==> key in entries
    ensures key in entries ==> ApplyBands(entries, nodes)[key] == entries[key]
  {
    if nodes != [] {
      ApplyBandsFrame(entries, nodes[..|nodes| - 1], key);
    }
  }

  /** The keys of bands 0 .. count - 1; with count NUM_BANDS, the keys a
      saved preset sets. */
  function BandKeysBelow(count: nat): set<string>
  {
    if count == 0 then {} else BandKeysBelow(count - 1) + {BandKey(count - 1)}
  }

  lemma {:induction false} BandKeyBelow(band: int, count: nat)
    requires 0 <= band < count
    ensures BandKey(band) in BandKeysBelow(count)
  {
    if band < count - 1 {
      BandKeyBelow(band, count - 1);
    }
  }

  function SavedKeys(): set<string>
  {
    BandKeysBelow(NUM_BANDS)
  }

  /** Loading one more node of a saved tree sets the next band's key to its
      rounded slider value. */
  lemma LoadSavedStep(entries: map<string, real>, gains: seq<real>, count: nat)
    requires |gains| == NUM_BANDS && 0 < count <= NUM_BANDS
    ensures ApplyBands(entries, SavedRoot(gains).children[..count])
            == ApplyBands(entries, SavedRoot(gains).children[..count - 1])[BandKey(count - 1) := Rounded(gains[count - 1])]
  {
    var children := SavedRoot(gains).children;
    ApplyBandsStep(entries, children, count - 1);
    SavedChildKey(gains, count - 1);
    assert Atof(children[count - 1].content) == Rounded(gains[count - 1]) by {
      assert children[count - 1] == BandNode(count - 1, gains[count - 1]);
      AtofFormatGain(gains[count - 1]);
    }
  }

  /** Setting one band's key leaves another band's entry as it was. */
  lemma SetOtherBand(entries: map<string, real>, band: int, other: int, value: real)
    requires band != other && BandKey(band) in entries
    ensures var updated := entries[BandKey(other) := value];
            BandKey(band) in updated && updated[BandKey(band)] == entries[BandKey(band)]
  {
    if BandKey(band) == BandKey(other) {
      BandKeyInjective(band, other);
    }
  }

  /** Loading the first `count` nodes of a saved tree sets band keys
      0 .. count - 1 to the rounded slider values. */
  lemma {:induction false} LoadSavedValues(entries: map<string, real>, gains: seq<real>, count: nat)
    requires |gains| == NUM_BANDS && count <= NUM_BANDS
    ensures var loaded := ApplyBands(entries, SavedRoot(gains).children[..count]);
            forall band | 0 <= band < count :: BandKey(band) in loaded && loaded[BandKey(band)] == Rounded(gains[band])
  {
    if count > 0 {
      var children := SavedRoot(gains).children;
      var before := ApplyBands(entries, children[..count - 1]);
      var loaded := ApplyBands(entries, children[..count]);
      LoadSavedValues(entries, gains, count - 1);
      LoadSavedStep(entries, gains, count);
      forall band | 0 <= band < count
        ensures BandKey(band) in loaded && loaded[BandKey(band)] == Rounded(gains[band])
      {
        if band < count - 1 {
          SetOtherBand(before, band, count - 1, Rounded(gains[count - 1]));
        }
      }
    }
  }

  /** Loading the first `count` nodes of a saved tree adds exactly the keys
      of bands 0 .. count - 1. */
  lemma {:induction false} LoadSavedKeys(entries: map<string, real>, gains: seq<real>, count: nat)
    requires |gains| == NUM_BANDS && count <= NUM_BANDS
    ensures ApplyBands(entries, SavedRoot(gains).children[..count]).Keys == entries.Keys + BandKeysBelow(count)
  {
    if count == 0 {
      assert SavedRoot(gains).children[..0] == [];
    } else {
      LoadSavedKeys(entries, gains, count - 1);
      LoadSavedStep(entries, gains, count);
    }
  }

  /** `preset_load` after `preset_save` sets exactly the keys band0 .. band9,
      each to its slider value rounded to one decimal; every other key is
      unchanged. */
  lemma LoadAfterSave(entries: map<string, real>, gains: seq<real>)
    requires |gains| == NUM_BANDS
    ensures var loaded := ApplyBands(entries, SavedRoot(gains).children);
            && loaded.Keys == entries.Keys + SavedKeys()
            && (forall band | 0 <= band < NUM_BANDS :: BandKey(band) in loaded && loaded[BandKey(band)] == Rounded(gains[band]))
            && (forall key | key in entries && key !in SavedKeys() :: key in loaded && loaded[key] == entries[key])
  {
    var children := SavedRoot(gains).children;
    assert children[..NUM_BANDS] == children;
    LoadSavedValues(entries, gains, NUM_BANDS);
    LoadSavedKeys(entries, gains, NUM_BANDS);
    forall key | key in entries && key !in SavedKeys()
      ensures key in ApplyBands(entries, children) && ApplyBands(entries, children)[key] == entries[key]
    {
      LoadSavedOther(entries, gains, key);
    }
  }

  /** Child i of a saved tree writes the key of band i. */
  lemma SavedChildKey(gains: seq<real>, band: nat)
    requires |gains| == NUM_BANDS && band < NUM_BANDS
    ensures WrittenKey(SavedRoot(gains).children[band]) == Some(BandKey(band))
  {
    assert SavedRoot(gains).children[band] == BandNode(band, gains[band]);
  }

  /** Loading a saved tree leaves a key outside the band keys as it was. */
  lemma LoadSavedOther(entries: map<string, real>, gains: seq<real>, key: string)
    requires |gains| == NUM_BANDS && key !in SavedKeys()
    ensures key in ApplyBands(entries, SavedRoot(gains).children) <==> key in entries
    ensures key in entries ==> ApplyBands(entries, SavedRoot(gains).children)[key] == entries[key]
  {
    var children := SavedRoot(gains).children;
    forall i | 0 <= i < |children|
      ensures WrittenKey(children[i]) != Some(key)
    {
      SavedChildKey(gains, i);
      BandKeyBelow(i, NUM_BANDS);
    }
    ApplyBandsFrame(entries, children, key);
  }

  /** Round trip through a preset: after saving the sliders and loading the
      preset, every band reads back as its slider value rounded to one
      decimal (clamped; for an in-range slider, no clamping happens). */
  lemma LoadAfterSaveReadsBack(entries: map<string, real>, gains: seq<real>, band: int)
    requires |gains| == NUM_BANDS && 0 <= band < NUM_BANDS
    ensures var loaded := ApplyBands(entries, SavedRoot(gains).children);
            && GetBandValue(loaded, band) == Clamp(Rounded(gains[band]), EQ_GAIN_MIN, EQ_GAIN_MAX)
            && (EQ_GAIN_MIN <= gains[band] <= EQ_GAIN_MAX ==> GetBandValue(loaded, band) == Rounded(gains[band]))
  {
    LoadAfterSave(entries, gains);
    BandKeyBelow(band, NUM_BANDS);
    if EQ_GAIN_MIN <= gains[band] <= EQ_GAIN_MAX {
      RoundedInRange(gains[band]);
    }
  }

  /** A band is only affected by nodes whose `num` is exactly its decimal
      name: nodes with another `num` ("15", "05", " 5") write keys that
      `get_band_value` never reads. */
  lemma OtherNumsIgnored(entries: map<string, real>, nodes: seq<Node>, band: int)
    requires 0 <= band < NUM_BANDS
    requires forall i | 0 <= i < |nodes| :: nodes[i].num != Some(IntToString(band))
    ensures GetBandValue(ApplyBands(entries, nodes), band) == GetBandValue(entries, band)
  {
    forall i | 0 <= i < |nodes|
      ensures WrittenKey(nodes[i]) != Some(BandKey(band))
    {
      if nodes[i].name == BAND_TAG && nodes[i].num.Some? {
        BandKeyOfSuffix(nodes[i].num.value, band);
      }
    }
    ApplyBandsFrame(entries, nodes, BandKey(band));
  }
}

/** The configuration store (gconf) as the plugin sees it: one float per band
    under `<namespace>/band<N>`, read with clamping, written from the sliders,
    and pushed back into the sliders by change notifications. */
module Config {
  import opened Wrappers
  import opened Text
  import opened Gains

  /** The gconf directory of the renderer (GCONF_MAFW_GST_EQ_RENDERER). */
  const GCONF_MAFW_GST_EQ_RENDERER: string := "/system/mafw/mafw-gst-eq-renderer"

  /** What every band key starts with. */
  const BAND_PREFIX: string := GCONF_MAFW_GST_EQ_RENDERER + "/band"

  /** Largest value of a C `int`. */
  const INT_MAX: int := 0x7fff_ffff

  /** The key of band `band`: the prefix followed by `printf("%d", band)`. */
  function BandKey(band: int): string
  {
    BAND_PREFIX + IntToString(band)
  }

  /** Band keys of different bands differ. */
  lemma BandKeyInjective(a: int, b: int)
    requires BandKey(a) == BandKey(b)
    ensures a == b
  {
    assert IntToString(a) == BandKey(a)[|BAND_PREFIX|..];
    assert IntToString(b) == BandKey(b)[|BAND_PREFIX|..];
    IntToStringInjective(a, b);
  }

  /** A key built from the band prefix and any suffix is the key of `band`
      exactly when the suffix is the decimal form of `band`. */
  lemma BandKeyOfSuffix(suffix: string, band: int)
    ensures BAND_PREFIX + suffix == BandKey(band) <==> suffix == IntToString(band)
  {
    if BAND_PREFIX + suffix == BandKey(band) {
      assert (BAND_PREFIX + suffix)[|BAND_PREFIX|..] == suffix;
      assert BandKey(band)[|BAND_PREFIX|..] == IntToString(band);
    }
  }

  /** `gconf_client_get_float`: an unset key reads as 0.0. */
  function StoredFloat(entries: map<string, real>, key: string): real
  {
    if key in entries then entries[key] else 0.0
  }

  /** `get_band_value`: the stored gain of a band, clamped into the gain range;
      0.0, without reading the store, for a band outside [0, NUM_BANDS). */
  function GetBandValue(entries: map<string, real>, band: int): (g: real)
    ensures EQ_GAIN_MIN <= g <= EQ_GAIN_MAX
    ensures !(0 <= band < NUM_BANDS) ==> g == 0.0
    ensures 0 <= band < NUM_BANDS && BandKey(band) !in entries ==> g == 0.0
    ensures 0 <= band < NUM_BANDS && BandKey(band) in entries ==>
              var stored := entries[BandKey(band)];
              && (EQ_GAIN_MIN <= stored <= EQ_GAIN_MAX ==> g == stored)
              && (stored < EQ_GAIN_MIN ==> g == EQ_GAIN_MIN)
              && (stored > EQ_GAIN_MAX ==> g == EQ_GAIN_MAX)
  {
    if !(0 <= band < NUM_BANDS) then 0.0
    else Clamp(StoredFloat(entries, BandKey(band)), EQ_GAIN_MIN, EQ_GAIN_MAX)
  }

  /** The client side of the store: its entries, updated in place. */
  class Client {
    var entries: map<string, real>

    constructor (initial: map<string, real>)
      ensures entries == initial
    {
      entries := initial;
    }

    /** `gconf_client_set_float`: the key takes the value, unclamped. */
    method SetFloat(key: string, value: real)
      modifies this
      ensures entries == old(entries)[key := value]
    {
      entries := entries[key := value];
    }

    /** `update_band_cb`: slider `band` moved to `value`; exactly the key of
        that band changes, to the slider's value. */
    method UpdateBand(band: int, value: real)
      modifies this
      ensures entries == old(entries)[BandKey(band) := value]
      ensures forall k | k != BandKey(band) :: StoredFloat(entries, k) == StoredFloat(old(entries), k)
    {
      SetFloat(BandKey(band), value);
    }
  }

  /** Writing one band and reading the bands back: the written band reads as
      its clamped value (the value itself when in range), every other band
      as before. */
  lemma UpdateThenRead(entries: map<string, real>, band: int, value: real, other: int)
    requires 0 <= band < NUM_BANDS
    ensures other == band ==>
              GetBandValue(entries[BandKey(band) := value], other) == Clamp(value, EQ_GAIN_MIN, EQ_GAIN_MAX)
    ensures other == band && EQ_GAIN_MIN <= value <= EQ_GAIN_MAX ==>
              GetBandValue(entries[BandKey(band) := value], other) == value
    ensures other != band ==>
              GetBandValue(entries[BandKey(band) := value], other) == GetBandValue(entries, other)
  {
    if other != band && BandKey(other) == BandKey(band) {
      BandKeyInjective(other, band);
    }
  }

  /** The band number `sscanf(key, "<namespace>/band%d")` reads from a
      notified key; `None` when the scan converts nothing. */
  function NotifiedBand(key: string): Option<int>
  {
    if BAND_PREFIX <= key then ScanInt(key[|BAND_PREFIX|..]) else None
  }

  /** A notification for a band's own key names that band. */
  lemma NotifiedBandOfBandKey(band: int)
    ensures NotifiedBand(BandKey(band)) == Some(band)
  {
    assert BandKey(band)[|BAND_PREFIX|..] == IntToString(band);
    ScanIntOfIntToString(band);
  }

  /** The gain a notification puts on a slider: the entry's value clamped to
      [-24.0, +12.0], or 0.0 when the entry has no value. */
  function SliderGain(value: Option<real>): (g: real)
    ensures -24.0 <= g <= 12.0
    ensures value.None? ==> g == 0.0
    ensures value.Some? && -24.0 <= value.value <= 12.0 ==> g == value.value
    ensures value.Some? && value.value < -24.0 ==> g == -24.0
    ensures value.Some? && value.value > 12.0 ==> g == 12.0
  {
    match value
    case None => 0.0
    case Some(v) => Clamp(v, -24.0, 12.0)
  }

  /** `update_slider_cb`: the store changed `key` to `value`. Only an upper
      bound is checked on the band number: below NUM_BANDS exactly that
      slider changes, otherwise none. The scan must succeed and give a band
      number in [0, INT_MAX]; `update_slider_cb` leaves the other cases undefined. */
  method UpdateSlider(key: string, value: Option<real>, sliders: array<real>)
    requires sliders.Length == NUM_BANDS
    requires NotifiedBand(key).Some? && 0 <= NotifiedBand(key).value <= INT_MAX
    modifies sliders
    ensures var band := NotifiedBand(key).value;
            if band < NUM_BANDS then sliders[..] == old(sliders[..])[band := SliderGain(value)]
            else sliders[..] == old(sliders[..])
  {
    var band := NotifiedBand(key).value;
    if band < NUM_BANDS {
      sliders[band] := SliderGain(value);
    }
  }
}

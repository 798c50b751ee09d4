/**
 * The LED writes the colour routines of the soundboard make, as functions
 * of the document. Each is defined the way its loop builds it, one write
 * appended per element; the lemmas give the write at every position.
 */
module Colors {
  import opened Wrappers
  import opened OrderedMap
  import opened Document
  import opened Palette
  import opened Devices

  /** The status byte `set_color` and `turn_all_off` use unless told otherwise. */
  const DEFAULT_STATUS := 144
  /** Number of notes `turn_all_off` clears on the default layer. */
  const GRID_SIZE := 128

  /** The writes of `set_color(key, colour, overrideId)`. */
  function ColorWrites(key: int, colour: string, overrideId: int): (r: seq<Write>)
    ensures |r| == if colour in PALETTE then 1 else 0
    ensures forall w :: w in r ==> w.status == overrideId && w.key == key && ColorCode(colour) == Some(w.value)
  {
    match ColorCode(colour)
    case None => []
    case Some(v) => [Write(overrideId, key, v)]
  }

  /** A palette colour makes `set_color` write exactly once, with that colour's code. */
  lemma ColorWritesInPalette(key: int, colour: string, overrideId: int)
    requires colour in PALETTE
    ensures ColorWrites(key, colour, overrideId) == [Write(overrideId, key, ColorCode(colour).value)]
  {
  }

  /** First loop of `turn_all_off`: every rack button off, addressed by its own status. */
  function RackOffWrites(rack: seq<Event>): seq<Write>
  {
    if rack == [] then []
    else
      var n := |rack| - 1;
      RackOffWrites(rack[..n]) + [Write(rack[n][0], rack[n][1], 0)]
  }

  /** Second loop of `turn_all_off`: notes 0 .. n-1 off on the default layer. */
  function GridOffWrites(n: nat): seq<Write>
  {
    seq(n, i => Write(DEFAULT_STATUS, i, 0))
  }

  /** All writes of `turn_all_off`. */
  function AllOffWrites(rack: seq<Event>): seq<Write>
  {
    RackOffWrites(rack) + GridOffWrites(GRID_SIZE)
  }

  /** The writes of `update_channel_rack_colors(active)`. */
  function RackColorWrites(rack: seq<Event>, active: int): seq<Write>
  {
    if rack == [] then []
    else
      var n := |rack| - 1;
      RackColorWrites(rack[..n], active)
        + ColorWrites(rack[n][1], if n == active then "lightgreen" else "lightred", rack[n][0])
  }

  /** The writes of `update_colors()`: each control in its own colour. */
  function KeyColorWrites(keys: OMap<KeyEntry>): seq<Write>
  {
    if keys == [] then []
    else
      var n := |keys| - 1;
      KeyColorWrites(keys[..n]) + ColorWrites(keys[n].1.event[1], keys[n].1.colour, DEFAULT_STATUS)
  }

  /** The controls whose colour is in the palette, in `keys` order: the ones `update_colors()` paints. */
  function PaletteOnly(keys: OMap<KeyEntry>): (r: OMap<KeyEntry>)
    ensures forall e :: e in r <==> e in keys && e.1.colour in PALETTE
    ensures |r| <= |keys|
  {
    if keys == [] then []
    else
      var n := |keys| - 1;
      assert keys == keys[..n] + [keys[n]];
      PaletteOnly(keys[..n]) + (if keys[n].1.colour in PALETTE then [keys[n]] else [])
  }

  /**
   * The outcome of painting the assigned audio buttons: the writes made,
   * and whether the loop finished (it raises at an entry holding `false`).
   */
  datatype Painted = Painted(writes: seq<Write>, complete: bool)

  /** The writes of `update_colors(only_assigned_audios_as=colour)`. */
  function AudioPaint(audios: OMap<Slot>, colour: string): Painted
  {
    if audios == [] then Painted([], true)
    else
      var n := |audios| - 1;
      var p := AudioPaint(audios[..n], colour);
      if !p.complete then p
      else match audios[n].1
        case False => Painted(p.writes, false)
        case Ev(e) => Painted(p.writes + ColorWrites(e[1], colour, DEFAULT_STATUS), true)
  }

  /** Both modes of `update_colors`; a missing or empty colour is falsy and paints the controls. */
  function UpdateColorsWrites(doc: Doc, onlyAssignedAudiosAs: Option<string>): Painted
  {
    if onlyAssignedAudiosAs.Some? && onlyAssignedAudiosAs.value != "" then
      AudioPaint(doc.audios, onlyAssignedAudiosAs.value)
    else
      Painted(KeyColorWrites(doc.keys), true)
  }

  // Positional characterisations

  lemma {:induction false} RackOffWritesAt(rack: seq<Event>)
    ensures |RackOffWrites(rack)| == |rack|
    ensures forall i :: 0 <= i < |rack| ==> RackOffWrites(rack)[i] == Write(rack[i][0], rack[i][1], 0)
  {
    if rack != [] {
      RackOffWritesAt(rack[..|rack| - 1]);
    }
  }

  /**
   * `turn_all_off` makes |rack| + 128 writes, all with value 0: first each
   * rack entry in order, then notes 0 .. 127 on status 144.
   */
  lemma AllOffWritesShape(rack: seq<Event>)
    ensures |AllOffWrites(rack)| == |rack| + GRID_SIZE
    ensures forall i :: 0 <= i < |rack| ==> AllOffWrites(rack)[i] == Write(rack[i][0], rack[i][1], 0)
    ensures forall i :: |rack| <= i < |rack| + GRID_SIZE ==>
      AllOffWrites(rack)[i] == Write(DEFAULT_STATUS, i - |rack|, 0)
    ensures forall w :: w in AllOffWrites(rack) ==> w.value == 0
  {
    RackOffWritesAt(rack);
  }

  /**
   * `update_channel_rack_colors(active)` writes once per rack entry, in rack
   * order: light green (56) at index `active`, light red (1) everywhere else.
   */
  lemma {:induction false} RackColorWritesAt(rack: seq<Event>, active: int)
    ensures |RackColorWrites(rack, active)| == |rack|
    ensures forall i :: 0 <= i < |rack| ==>
      RackColorWrites(rack, active)[i] == Write(rack[i][0], rack[i][1], if i == active then 56 else 1)
  {
    if rack != [] {
      RackColorWritesAt(rack[..|rack| - 1], active);
    }
  }

  /**
   * `update_colors()` writes at most once per control, always on status 144
   * and always with a palette code.
   */
  lemma {:induction false} KeyColorWritesBounded(keys: OMap<KeyEntry>)
    ensures |KeyColorWrites(keys)| <= |keys|
    ensures forall w :: w in KeyColorWrites(keys) ==> w.status == DEFAULT_STATUS && w.value in CODES
  {
    if keys != [] {
      KeyColorWritesBounded(keys[..|keys| - 1]);
    }
  }

  /**
   * When every control's colour is in the palette, `update_colors()` writes
   * exactly once per control, in `keys` order.
   */
  lemma {:induction false} KeyColorWritesAt(keys: OMap<KeyEntry>)
    requires forall i :: 0 <= i < |keys| ==> keys[i].1.colour in PALETTE
    ensures |KeyColorWrites(keys)| == |keys|
    ensures forall i :: 0 <= i < |keys| ==>
      KeyColorWrites(keys)[i] == Write(DEFAULT_STATUS, keys[i].1.event[1], ColorCode(keys[i].1.colour).value)
  {
    if keys != [] {
      var n := |keys| - 1;
      assert forall i :: 0 <= i < n ==> keys[..n][i] == keys[i];
      KeyColorWritesAt(keys[..n]);
      var prefix := KeyColorWrites(keys[..n]);
      var e := keys[n].1;
      ColorWritesInPalette(e.event[1], e.colour, DEFAULT_STATUS);
      assert KeyColorWrites(keys) == prefix + [Write(DEFAULT_STATUS, e.event[1], ColorCode(e.colour).value)];
      forall i | 0 <= i < n
        ensures KeyColorWrites(keys)[i] == Write(DEFAULT_STATUS, keys[i].1.event[1], ColorCode(keys[i].1.colour).value)
      {
        assert KeyColorWrites(keys)[i] == prefix[i];
      }
    }
  }

  /** Keeping the palette controls of a concatenation keeps them part by part, in order. */
  lemma {:induction false} PaletteOnlyAppend(a: OMap<KeyEntry>, b: OMap<KeyEntry>)
    ensures PaletteOnly(a + b) == PaletteOnly(a) + PaletteOnly(b)
  {
    if b == [] {
      assert a + b == a;
    } else {
      var n := |b| - 1;
      assert (a + b)[..|a + b| - 1] == a + b[..n];
      assert (a + b)[|a + b| - 1] == b[n];
      PaletteOnlyAppend(a, b[..n]);
    }
  }

  /**
   * `update_colors()` skips a control whose colour is not in the palette and
   * paints the others as if the skipped ones were absent: one write per
   * palette control, in `keys` order, with its note and its colour's code.
   */
  lemma {:induction false} KeyColorWritesSkipsStale(keys: OMap<KeyEntry>)
    ensures KeyColorWrites(keys) == KeyColorWrites(PaletteOnly(keys))
    ensures |KeyColorWrites(keys)| == |PaletteOnly(keys)|
    ensures forall i :: 0 <= i < |PaletteOnly(keys)| ==>
      KeyColorWrites(keys)[i] == Write(DEFAULT_STATUS, PaletteOnly(keys)[i].1.event[1], ColorCode(PaletteOnly(keys)[i].1.colour).value)
  {
    if keys != [] {
      var n := |keys| - 1;
      KeyColorWritesSkipsStale(keys[..n]);
      var pre := PaletteOnly(keys[..n]);
      var e := keys[n];
      if e.1.colour in PALETTE {
        var q := pre + [e];
        assert q[..|q| - 1] == pre;
        assert KeyColorWrites(q) == KeyColorWrites(pre) + ColorWrites(e.1.event[1], e.1.colour, DEFAULT_STATUS);
      } else {
        assert PaletteOnly(keys) == pre;
      }
    }
    forall i | 0 <= i < |PaletteOnly(keys)|
      ensures PaletteOnly(keys)[i].1.colour in PALETTE
    {
      assert PaletteOnly(keys)[i] in PaletteOnly(keys);
    }
    KeyColorWritesAt(PaletteOnly(keys));
  }

  /**
   * Painting the audio buttons writes, in order, one write per entry up to
   * the first entry holding `false`, where it stops; it completes exactly
   * when no entry holds `false`.
   */
  lemma {:induction false} AudioPaintShape(audios: OMap<Slot>, colour: string)
    requires colour in PALETTE
    ensures AudioPaint(audios, colour).complete <==> forall i :: 0 <= i < |audios| ==> audios[i].1.Ev?
    ensures |AudioPaint(audios, colour).writes| <= |audios|
    ensures forall i :: 0 <= i < |AudioPaint(audios, colour).writes| ==>
      audios[i].1.Ev? &&
      AudioPaint(audios, colour).writes[i] == Write(DEFAULT_STATUS, audios[i].1.event[1], ColorCode(colour).value)
    ensures AudioPaint(audios, colour).complete ==> |AudioPaint(audios, colour).writes| == |audios|
    ensures !AudioPaint(audios, colour).complete ==> audios[|AudioPaint(audios, colour).writes|].1 == False
  {
    if audios != [] {
      var n := |audios| - 1;
      AudioPaintShape(audios[..n], colour);
      assert forall i :: 0 <= i < n ==> audios[..n][i] == audios[i];
    }
  }

  /** With no `false` entry, painting the audio buttons writes entry `i`'s note at position `i`. */
  lemma AudioPaintAt(audios: OMap<Slot>, colour: string, i: nat)
    requires colour in PALETTE && i < |audios|
    requires forall j :: 0 <= j < |audios| ==> audios[j].1.Ev?
    ensures |AudioPaint(audios, colour).writes| == |audios|
    ensures AudioPaint(audios, colour).writes[i] == Write(DEFAULT_STATUS, audios[i].1.event[1], ColorCode(colour).value)
  {
    AudioPaintShape(audios, colour);
  }

  /** Once the audio loop has raised, later entries change nothing. */
  lemma {:induction false} AudioPaintStopsAtFalse(audios: OMap<Slot>, k: nat, colour: string)
    requires k <= |audios|
    requires !AudioPaint(audios[..k], colour).complete
    ensures AudioPaint(audios, colour) == AudioPaint(audios[..k], colour)
  {
    if k < |audios| {
      var n := |audios| - 1;
      assert audios[..n][..k] == audios[..k];
      AudioPaintStopsAtFalse(audios[..n], k, colour);
    } else {
      assert audios[..k] == audios;
    }
  }
}

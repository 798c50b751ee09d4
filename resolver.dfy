/**
 * Classifying a raw event against the document: every lookup compares the
 * whole event list for equality and takes the first match in document
 * order; a miss is a value, never an error.
 */
module Resolver {
  import opened Wrappers
  import opened OrderedMap
  import opened Document

  /** The recorded event of every control, in `keys` order. */
  function ControlEvents(keys: OMap<KeyEntry>): seq<Event>
  {
    seq(|keys|, i requires 0 <= i < |keys| => keys[i].1.event)
  }

  /** `find_control_by_data`: the first control whose recorded event equals `data`. */
  function FindControlByData(doc: Doc, data: Event): (r: Option<string>)
    ensures r.None? <==> forall i :: 0 <= i < |doc.keys| ==> doc.keys[i].1.event != data
    ensures r.Some? ==> exists i :: (0 <= i < |doc.keys| && doc.keys[i].0 == r.value
      && doc.keys[i].1.event == data && forall j :: 0 <= j < i ==> doc.keys[j].1.event != data)
  {
    assert forall i :: 0 <= i < |doc.keys| ==> ControlEvents(doc.keys)[i] == doc.keys[i].1.event;
    match FirstIndex(ControlEvents(doc.keys), data)
    case None => None
    case Some(i) => Some(doc.keys[i].0)
  }

  /** `find_audio_by_data`: the first audio file whose stored event equals `data`. */
  function FindAudioByData(doc: Doc, data: Event): (r: Option<string>)
    ensures r.None? <==> forall i :: 0 <= i < |doc.audios| ==> doc.audios[i].1 != Ev(data)
    ensures r.Some? ==> exists i :: (0 <= i < |doc.audios| && doc.audios[i].0 == r.value
      && doc.audios[i].1 == Ev(data) && forall j :: 0 <= j < i ==> doc.audios[j].1 != Ev(data))
  {
    assert forall i :: 0 <= i < |doc.audios| ==> Values(doc.audios)[i] == doc.audios[i].1;
    match FirstIndex(Values(doc.audios), Ev(data))
    case None => None
    case Some(i) => Some(doc.audios[i].0)
  }

  /** `find_channel_by_data`: the 1-based position of the first rack entry equal to `data`. */
  function FindChannelByData(doc: Doc, data: Event): (r: Option<nat>)
    ensures r.None? <==> data !in doc.channel_rack
    ensures r.Some? ==> 1 <= r.value <= |doc.channel_rack| && doc.channel_rack[r.value - 1] == data
    ensures r.Some? ==> forall j :: 0 <= j < r.value - 1 ==> doc.channel_rack[j] != data
  {
    match FirstIndex(doc.channel_rack, data)
    case None => None
    case Some(i) => Some(i + 1)
  }
}

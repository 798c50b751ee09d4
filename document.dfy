/**
 * The persisted document `controls.json`: the control table, the audio
 * assignments, the channel rack and the pending assignment, under the
 * key names the program uses.
 */
module Document {
  import opened OrderedMap

  /** A raw MIDI event list `[status, data1, data2, ...]`; data1 is the note, data2 the velocity. */
  type Event = s: seq<int> | |s| >= 3 witness [0, 0, 0]

  /** A JSON value that is either `false` or a recorded event list. */
  datatype Slot = False | Ev(event: Event)

  /** A `keys` entry: `[eventData, colourName]`. */
  datatype KeyEntry = KeyEntry(event: Event, colour: string)

  datatype Doc = Doc(
    keys: OMap<KeyEntry>,
    audios: OMap<Slot>,
    channel_rack: seq<Event>,
    needs_to_be_assigned: Slot)

  /** Number of playback channels the mixer creates. */
  const CHANNEL_COUNT := 8

  /**
   * What a loaded document looks like: JSON object keys are unique, and
   * the rack has no more entries than the mixer has channels.
   */
  ghost predicate WellFormed(d: Doc)
  {
    Distinct(Names(d.keys)) && Distinct(Names(d.audios)) && |d.channel_rack| <= CHANNEL_COUNT
  }

  /** The file `controls.json`, shared by the control loop and the web application. */
  class Store {
    var doc: Doc

    constructor (doc: Doc)
      ensures this.doc == doc
    {
      this.doc := doc;
    }
  }
}

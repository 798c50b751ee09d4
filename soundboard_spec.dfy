/**
 * What one tick of the soundboard does, as functions over the whole
 * observable state: the document, the three soundboard fields, the mixer's
 * selected channel and the two device logs. `Dispatch` is the body of the
 * event loop for one event; `RunBatch` is one call of `loop`.
 */
module SoundboardSpec {
  import opened Wrappers
  import opened OrderedMap
  import opened Document
  import opened Palette
  import opened Resolver
  import opened Devices
  import opened Colors

  const PLAY_KEY := "play_key"
  const TOGGLE_TESTMODE_KEY := "toggle_testmode_key"
  const PAUSE_KEY := "pause_key"
  const STOP_KEY := "stop_key"
  const FADEOUT_KEY := "fadeout_key"

  datatype Machine = Machine(
    doc: Doc,
    unassigned: bool,
    selected_channel: int,
    testing_mode: bool,
    current_channel: int,
    notForTesting: bool,
    writes: seq<Write>,
    commands: seq<Command>)

  /** How handling an event ends: go on, `break` out of the batch, or raise. */
  datatype Flow = Continue | Break | Crash

  datatype Step = Step(m: Machine, flow: Flow)

  /** The state every tick starts and ends in. */
  ghost predicate Inv(m: Machine)
  {
    WellFormed(m.doc) && 0 <= m.selected_channel < CHANNEL_COUNT && m.current_channel == m.selected_channel
  }

  function Emit(m: Machine, ws: seq<Write>): Machine
  {
    m.(writes := m.writes + ws)
  }

  /** A transport call on the mixer's current channel. */
  function Transport(m: Machine, op: MixerOp): Machine
  {
    m.(commands := m.commands + [Command(m.current_channel, op)])
  }

  /** `Mixer.play(audio, test_only)`. */
  function PlayAudio(m: Machine, audio: string, testOnly: bool): Machine
  {
    if m.notForTesting && testOnly then m else Transport(m, Play(audio))
  }

  /**
   * `set_as_needs_to_be_assigned(data)`: store `data` as the pending
   * assignment; for an event, repaint: all off, assigned audios red, the
   * pending button green.
   */
  function SetAsNeedsToBeAssigned(m: Machine, data: Slot): Step
  {
    var saved := m.(doc := m.doc.(needs_to_be_assigned := data));
    match data
    case False => Step(saved, Continue)
    case Ev(e) =>
      var p := AudioPaint(saved.doc.audios, "red");
      var painted := Emit(saved, AllOffWrites(saved.doc.channel_rack) + p.writes);
      if !p.complete then Step(painted, Crash)
      else Step(Emit(painted, ColorWrites(e[1], "green", DEFAULT_STATUS)), Continue)
  }

  /**
   * The full interface reload of `init` and of a cancelled assignment: all
   * off, controls in their colours, assigned audios orange, pending
   * assignment cleared, rack with `active` highlighted.
   */
  function Reload(m: Machine, active: int): Step
  {
    var keysPainted := Emit(m, AllOffWrites(m.doc.channel_rack) + KeyColorWrites(m.doc.keys));
    var p := AudioPaint(m.doc.audios, "orange");
    var audiosPainted := Emit(keysPainted, p.writes);
    if !p.complete then Step(audiosPainted, Crash)
    else
      var cleared := SetAsNeedsToBeAssigned(audiosPainted, False).m;
      Step(Emit(cleared, RackColorWrites(cleared.doc.channel_rack, active)), Continue)
  }

  /** `update_channel_rack_colors(c)` followed by `update_selected_channel(c)`. */
  function SwitchChannel(m: Machine, c: int): Machine
  {
    Emit(m, RackColorWrites(m.doc.channel_rack, c)).(selected_channel := c, current_channel := c)
  }

  /** The `else` branch of the control dispatch: audio, then rack, then a new assignment. */
  function FallThrough(m: Machine, data: Event): Step
  {
    var audioName := FindAudioByData(m.doc, data);
    if audioName.Some? && audioName.value != "" then
      if m.unassigned then
        var s := Reload(m, m.selected_channel);
        if s.flow == Crash then s else Step(s.m.(unassigned := false), Continue)
      else
        Step(PlayAudio(m, audioName.value, m.testing_mode), Continue)
    else if data[2] != 0 then
      var channel := FindChannelByData(m.doc, data);
      if channel.Some? then
        if m.selected_channel - 1 == channel.value then Step(m, Break)
        else Step(SwitchChannel(m, channel.value - 1), Continue)
      else
        var s := SetAsNeedsToBeAssigned(m, Ev(data));
        if s.flow == Crash then s else Step(s.m.(unassigned := true), Continue)
    else
      Step(m, Continue)
  }

  /** Handling one event of the batch. */
  function Dispatch(m: Machine, data: Event): Step
  {
    var controlName := FindControlByData(m.doc, data);
    var m1 := if controlName == Some(PLAY_KEY) then Transport(m, Unpause) else m;
    if controlName == Some(TOGGLE_TESTMODE_KEY) then
      var t := !m1.testing_mode;
      Step(Emit(m1.(testing_mode := t), ColorWrites(data[1], if t then "green" else "red", DEFAULT_STATUS)), Continue)
    else if controlName == Some(PAUSE_KEY) then Step(Transport(m1, Pause), Continue)
    else if controlName == Some(STOP_KEY) then Step(Transport(m1, Stop), Continue)
    else if controlName == Some(FADEOUT_KEY) then Step(Transport(m1, Fadeout(DEFAULT_FADEOUT_DURATION)), Continue)
    else FallThrough(m1, data)
  }

  /** One call of `loop` over the events read in this tick. */
  function RunBatch(m: Machine, events: seq<MidiEvent>): Step
    decreases |events|
  {
    if events == [] then Step(m, Continue)
    else
      var s := Dispatch(m, events[0].data);
      if s.flow == Continue then RunBatch(s.m, events[1..]) else s
  }
}

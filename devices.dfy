/**
 * The two external devices as command logs: the LED output of the control
 * surface (`midi.Output.write_short`) and the `Mixer` with its eight
 * playback channels.
 */
module Devices {
  import opened Document

  /** One `write_short(status, key, value)` to the control surface. */
  datatype Write = Write(status: int, key: int, value: int)

  /** One input event as `midi.Input.read` returns it: `[data, timestamp]`. */
  datatype MidiEvent = MidiEvent(data: Event, timestamp: int)

  /** A transport call on one `mixer.Channel`. */
  datatype MixerOp = Pause | Unpause | Stop | Fadeout(duration: int) | Play(audio: string)

  /** A transport call together with the channel index it was sent to. */
  datatype Command = Command(channel: int, op: MixerOp)

  /** Fade-out duration, in milliseconds, when none is given. */
  const DEFAULT_FADEOUT_DURATION := 500

  /** Most events `loop` reads from the input in one tick. */
  const MAX_EVENTS_PER_READ := 10

  /** The control surface's LED output. */
  class Output {
    var writes: seq<Write>

    constructor ()
      ensures writes == []
    {
      writes := [];
    }

    method WriteShort(status: int, key: int, value: int)
      modifies this
      ensures writes == old(writes) + [Write(status, key, value)]
    {
      writes := writes + [Write(status, key, value)];
    }
  }

  /** The `Mixer` class: a selected channel and the calls sent to the channels. */
  class Mixer {
    var current_channel: int
    var commands: seq<Command>
    /** `DEVICE_IS_NOT_FOR_TESTING`: play nothing here while testing. */
    const notForTesting: bool

    /** `self.channels[self.current_channel]` must index one of the eight channels. */
    ghost predicate Valid()
      reads this
    {
      0 <= current_channel < CHANNEL_COUNT
    }

    constructor (notForTesting: bool)
      ensures Valid() && current_channel == 0 && commands == []
      ensures this.notForTesting == notForTesting
    {
      current_channel := 0;
      commands := [];
      this.notForTesting := notForTesting;
    }

    method Pause()
      requires Valid()
      modifies this`commands
      ensures commands == old(commands) + [Command(current_channel, MixerOp.Pause)]
    {
      commands := commands + [Command(current_channel, MixerOp.Pause)];
    }

    method Unpause()
      requires Valid()
      modifies this`commands
      ensures commands == old(commands) + [Command(current_channel, MixerOp.Unpause)]
    {
      commands := commands + [Command(current_channel, MixerOp.Unpause)];
    }

    method Stop()
      requires Valid()
      modifies this`commands
      ensures commands == old(commands) + [Command(current_channel, MixerOp.Stop)]
    {
      commands := commands + [Command(current_channel, MixerOp.Stop)];
    }

    method Fadeout(duration: int)
      requires Valid()
      modifies this`commands
      ensures commands == old(commands) + [Command(current_channel, MixerOp.Fadeout(duration))]
    {
      commands := commands + [Command(current_channel, MixerOp.Fadeout(duration))];
    }

    /** Nothing is played when this device is not for testing and the call is a test. */
    method Play(audio: string, testOnly: bool)
      requires Valid()
      modifies this`commands
      ensures commands == if notForTesting && testOnly then old(commands)
                          else old(commands) + [Command(current_channel, MixerOp.Play(audio))]
    {
      if notForTesting && testOnly {
        return;
      }
      commands := commands + [Command(current_channel, MixerOp.Play(audio))];
    }
  }
}

/**
 * The `Soundboard` class: LED colour routines, channel selection, the
 * assignment workflow and the event loop, each proved against the tick
 * specification in `SoundboardSpec`.
 */
module AudioMain {
  import opened Wrappers
  import opened OrderedMap
  import opened Document
  import opened Palette
  import opened Resolver
  import opened Devices
  import opened Colors
  import opened SoundboardSpec
  import opened SoundboardLemmas

  class Soundboard {
    const mixer: Mixer
    const output: Output
    /** The document, re-read by every routine. */
    const store: Store
    var unassigned: bool
    var selected_channel: int
    var testing_mode: bool

    /** Everything a tick can observe or change. */
    ghost function State(): Machine
      reads this, mixer, output, store
    {
      Machine(store.doc, unassigned, selected_channel, testing_mode,
              mixer.current_channel, mixer.notForTesting, output.writes, mixer.commands)
    }

    ghost predicate Valid()
      reads this, mixer, output, store
    {
      Inv(State())
    }

    constructor (store: Store, notForTesting: bool)
      requires WellFormed(store.doc)
      ensures Valid() && this.store == store && fresh(mixer) && fresh(output)
      ensures State() == Machine(store.doc, false, 0, false, 0, notForTesting, [], [])
    {
      mixer := new Mixer(notForTesting);
      output := new Output();
      this.store := store;
      unassigned := false;
      selected_channel := 0;
      testing_mode := false;
    }

    /** `update_selected_channel`: the soundboard and the mixer select the same channel. */
    method UpdateSelectedChannel(newChannel: int)
      modifies this`selected_channel, mixer`current_channel
      ensures selected_channel == newChannel && mixer.current_channel == newChannel
    {
      selected_channel := newChannel;
      mixer.current_channel := newChannel;
    }

    /** `set_color`: one write with the palette code, or none for an unknown colour. */
    method SetColor(key: int, colour: string, overrideId: int)
      modifies output
      ensures output.writes == old(output.writes) + ColorWrites(key, colour, overrideId)
    {
      if colour !in PALETTE {
        return;
      }
      output.WriteShort(overrideId, key, ColorCode(colour).value);
    }

    /** `turn_all_off`. */
    method TurnAllOff()
      modifies output
      ensures output.writes == old(output.writes) + AllOffWrites(store.doc.channel_rack)
    {
      var channelRack := store.doc.channel_rack;
      for i := 0 to |channelRack|
        invariant output.writes == old(output.writes) + RackOffWrites(channelRack[..i])
      {
        assert channelRack[..i + 1][..i] == channelRack[..i];
        output.WriteShort(channelRack[i][0], channelRack[i][1], 0);
      }
      assert channelRack[..|channelRack|] == channelRack;
      for i := 0 to GRID_SIZE
        invariant output.writes == old(output.writes) + RackOffWrites(channelRack) + GridOffWrites(i)
      {
        assert GridOffWrites(i + 1) == GridOffWrites(i) + [Write(DEFAULT_STATUS, i, 0)];
        output.WriteShort(DEFAULT_STATUS, i, 0);
      }
    }

    /** `update_channel_rack_colors(active_channel)`. */
    method UpdateChannelRackColors(activeChannel: int)
      modifies output
      ensures output.writes == old(output.writes) + RackColorWrites(store.doc.channel_rack, activeChannel)
    {
      var channels := store.doc.channel_rack;
      for index := 0 to |channels|
        invariant output.writes == old(output.writes) + RackColorWrites(channels[..index], activeChannel)
      {
        assert channels[..index + 1][..index] == channels[..index];
        if index == activeChannel {
          SetColor(channels[index][1], "lightgreen", channels[index][0]);
        } else {
          SetColor(channels[index][1], "lightred", channels[index][0]);
        }
      }
      assert channels[..|channels|] == channels;
    }

    /**
     * `update_colors(only_assigned_audios_as)`; `raised` is the `TypeError`
     * of an audio entry that holds `false`.
     */
    method UpdateColors(onlyAssignedAudiosAs: Option<string>) returns (raised: bool)
      modifies output
      ensures output.writes == old(output.writes) + UpdateColorsWrites(store.doc, onlyAssignedAudiosAs).writes
      ensures raised == !UpdateColorsWrites(store.doc, onlyAssignedAudiosAs).complete
    {
      var keys := store.doc.keys;
      var audios := store.doc.audios;
      raised := false;
      if onlyAssignedAudiosAs.Some? && onlyAssignedAudiosAs.value != "" {
        var colour := onlyAssignedAudiosAs.value;
        for i := 0 to |audios|
          invariant AudioPaint(audios[..i], colour).complete
          invariant output.writes == old(output.writes) + AudioPaint(audios[..i], colour).writes
        {
          assert audios[..i + 1][..i] == audios[..i];
          match audios[i].1
          case False =>
            AudioPaintStopsAtFalse(audios, i + 1, colour);
            raised := true;
            return;
          case Ev(position) =>
            SetColor(position[1], colour, DEFAULT_STATUS);
        }
        assert audios[..|audios|] == audios;
      } else {
        for i := 0 to |keys|
          invariant output.writes == old(output.writes) + KeyColorWrites(keys[..i])
        {
          assert keys[..i + 1][..i] == keys[..i];
          SetColor(keys[i].1.event[1], keys[i].1.colour, DEFAULT_STATUS);
        }
        assert keys[..|keys|] == keys;
      }
    }

    /** `set_as_needs_to_be_assigned(data)`. */
    method SetAsNeedsToBeAssigned(data: Slot) returns (raised: bool)
      modifies store, output
      ensures State() == SoundboardSpec.SetAsNeedsToBeAssigned(old(State()), data).m
      ensures raised == (SoundboardSpec.SetAsNeedsToBeAssigned(old(State()), data).flow == Crash)
    {
      var prevData := store.doc;
      prevData := prevData.(needs_to_be_assigned := data);
      store.doc := prevData;
      raised := false;
      if data.Ev? {
        TurnAllOff();
        raised := UpdateColors(Some("red"));
        if raised {
          return;
        }
        SetColor(data.event[1], "green", DEFAULT_STATUS);
      }
    }

    /** `init`, after the devices are open: reload the interface with channel 0 active. */
    method Init() returns (raised: bool)
      requires Valid()
      modifies output, store
      ensures State() == Reload(old(State()), 0).m
      ensures raised == (Reload(old(State()), 0).flow == Crash)
      ensures Valid()
    {
      ReloadExtends(State(), 0);
      raised := ReloadInterface(0);
    }

    /** The body of the event loop in `loop`, for one event. */
    method HandleEvent(data: Event) returns (flow: Flow)
      requires Valid()
      modifies this, mixer, output, store
      ensures Step(State(), flow) == Dispatch(old(State()), data)
      ensures Valid()
    {
      DispatchPreservesInv(State(), data);
      ghost var m0 := State();
      var controlName := FindControlByData(store.doc, data);
      if controlName == Some(PLAY_KEY) {
        mixer.Unpause();
      }
      ghost var m1 := State();
      assert m1 == if controlName == Some(PLAY_KEY) then Transport(m0, Unpause) else m0;
      flow := Continue;
      if controlName == Some(TOGGLE_TESTMODE_KEY) {
        testing_mode := !testing_mode;
        SetColor(data[1], if testing_mode then "green" else "red", DEFAULT_STATUS);
      } else if controlName == Some(PAUSE_KEY) {
        mixer.Pause();
      } else if controlName == Some(STOP_KEY) {
        mixer.Stop();
      } else if controlName == Some(FADEOUT_KEY) {
        mixer.Fadeout(DEFAULT_FADEOUT_DURATION);
      } else {
        flow := HandleUnmatchedControl(data);
      }
    }

    /** The `else` branch of the control dispatch. */
    method HandleUnmatchedControl(data: Event) returns (flow: Flow)
      requires Valid()
      modifies this, mixer, output, store
      ensures Step(State(), flow) == FallThrough(old(State()), data)
      ensures Valid()
    {
      FallThroughPreservesInv(State(), data);
      flow := Continue;
      var audioName := FindAudioByData(store.doc, data);
      if audioName.Some? && audioName.value != "" {
        if unassigned {
          // Cancel the assignment and reload the interface.
          var raised := ReloadInterface(selected_channel);
          if raised {
            flow := Crash;
            return;
          }
          unassigned := false;
        } else {
          mixer.Play(audioName.value, testing_mode);
        }
      } else if data[2] != 0 {
        flow := HandleRackOrNewAssignment(data);
      }
    }

    /** A press that is neither a control nor an audio: switch channel, or start an assignment. */
    method HandleRackOrNewAssignment(data: Event) returns (flow: Flow)
      requires Valid() && !IsAudioHit(FindAudioByData(store.doc, data)) && data[2] != 0
      modifies this, mixer, output, store
      ensures Step(State(), flow) == FallThrough(old(State()), data)
      ensures Valid()
    {
      FallThroughPreservesInv(State(), data);
      flow := Continue;
      var channel := FindChannelByData(store.doc, data);
      if channel.Some? {
        if selected_channel - 1 == channel.value {
          flow := Break;
          return;
        }
        UpdateChannelRackColors(channel.value - 1);
        UpdateSelectedChannel(channel.value - 1);
      } else {
        var raised := SetAsNeedsToBeAssigned(Ev(data));
        if raised {
          flow := Crash;
          return;
        }
        unassigned := true;
      }
    }

    /** The interface reload shared by `init` and a cancelled assignment. */
    method ReloadInterface(active: int) returns (raised: bool)
      modifies output, store
      ensures State() == Reload(old(State()), active).m
      ensures raised == (Reload(old(State()), active).flow == Crash)
    {
      ghost var m0 := State();
      TurnAllOff();
      raised := UpdateColors(None);
      assert output.writes == m0.writes + (AllOffWrites(m0.doc.channel_rack) + KeyColorWrites(m0.doc.keys));
      ghost var p := AudioPaint(m0.doc.audios, "orange");
      raised := UpdateColors(Some("orange"));
      assert output.writes == Emit(Emit(m0, AllOffWrites(m0.doc.channel_rack) + KeyColorWrites(m0.doc.keys)), p.writes).writes;
      if raised {
        return;
      }
      raised := SetAsNeedsToBeAssigned(False);
      UpdateChannelRackColors(active);
    }

    /** `loop`: handle the events read in this tick, in order, until one breaks or raises. */
    method Loop(events: seq<MidiEvent>) returns (raised: bool)
      requires Valid() && |events| <= MAX_EVENTS_PER_READ
      modifies this, mixer, output, store
      ensures Valid()
      ensures State() == RunBatch(old(State()), events).m
      ensures raised == (RunBatch(old(State()), events).flow == Crash)
    {
      raised := false;
      for k := 0 to |events|
        invariant Valid()
        invariant RunBatch(old(State()), events) == RunBatch(State(), events[k..])
      {
        assert events[k..][0] == events[k] && events[k..][1..] == events[k + 1..];
        var flow := HandleEvent(events[k].data);
        if flow != Continue {
          raised := flow == Crash;
          return;
        }
      }
    }
  }
}

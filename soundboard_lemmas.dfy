/** Properties of one event and of one batch, proved about `SoundboardSpec`. */
module SoundboardLemmas {
  import opened Wrappers
  import opened OrderedMap
  import opened Document
  import opened Palette
  import opened Resolver
  import opened Devices
  import opened Colors
  import opened SoundboardSpec

  /** The control names that end the dispatch before audios and rack are looked at. */
  predicate IsExclusiveControl(name: Option<string>)
  {
    name == Some(TOGGLE_TESTMODE_KEY) || name == Some(PAUSE_KEY) || name == Some(STOP_KEY) || name == Some(FADEOUT_KEY)
  }

  /** A found audio name that `if audio_name:` accepts. */
  predicate IsAudioHit(name: Option<string>)
  {
    name.Some? && name.value != ""
  }

  // One event

  /**
   * `r` is reachable from `m` by the soundboard: the tables and the device
   * flag are as they were, both logs were only appended to, and every new
   * mixer call went to `m`'s current channel.
   */
  ghost predicate Extends(m: Machine, r: Machine)
  {
    r.doc == m.doc.(needs_to_be_assigned := r.doc.needs_to_be_assigned)
    && r.notForTesting == m.notForTesting
    && m.writes <= r.writes && m.commands <= r.commands
    && forall k :: |m.commands| <= k < |r.commands| ==> r.commands[k].channel == m.current_channel
  }

  lemma SetAsNeedsToBeAssignedExtends(m: Machine, data: Slot)
    ensures var r := SoundboardSpec.SetAsNeedsToBeAssigned(m, data).m;
      Extends(m, r) && r == m.(doc := m.doc.(needs_to_be_assigned := data), writes := r.writes)
  {
  }

  lemma ReloadExtends(m: Machine, active: int)
    ensures var r := Reload(m, active).m;
      Extends(m, r) && r.commands == m.commands && r.unassigned == m.unassigned
      && r.selected_channel == m.selected_channel && r.current_channel == m.current_channel
      && r.testing_mode == m.testing_mode
      && (r.doc.needs_to_be_assigned == m.doc.needs_to_be_assigned || r.doc.needs_to_be_assigned == False)
  {
  }

  lemma FallThroughExtends(m: Machine, data: Event)
    ensures Extends(m, FallThrough(m, data).m)
    ensures FallThrough(m, data).m.notForTesting == m.notForTesting
  {
    var audioName := FindAudioByData(m.doc, data);
    if IsAudioHit(audioName) {
      if m.unassigned {
        ReloadExtends(m, m.selected_channel);
      }
    } else if data[2] != 0 {
      if FindChannelByData(m.doc, data).None? {
        SetAsNeedsToBeAssignedExtends(m, Ev(data));
      }
    }
  }

  /**
   * What the fall-through branch can do to the soundboard fields: only a
   * rack press or a new assignment, both with non-zero velocity, can move
   * the channel, end the batch, set `unassigned` or store a new pending
   * event; a cancel only clears.
   */
  lemma FallThroughFields(m: Machine, data: Event)
    ensures var r := FallThrough(m, data);
      r.m.testing_mode == m.testing_mode
      && ((r.m.selected_channel == m.selected_channel && r.m.current_channel == m.current_channel)
          || (data[2] != 0 && r.m.selected_channel == r.m.current_channel && 0 <= r.m.selected_channel < |m.doc.channel_rack|))
      && (r.flow == Break ==> data[2] != 0)
      && (r.m.unassigned ==> m.unassigned || data[2] != 0)
      && (r.m.doc.needs_to_be_assigned == m.doc.needs_to_be_assigned || r.m.doc.needs_to_be_assigned == False
          || (data[2] != 0 && r.m.doc.needs_to_be_assigned == Ev(data)))
  {
    var audioName := FindAudioByData(m.doc, data);
    if IsAudioHit(audioName) {
      if m.unassigned {
        ReloadExtends(m, m.selected_channel);
      }
    } else if data[2] != 0 {
      if FindChannelByData(m.doc, data).None? {
        SetAsNeedsToBeAssignedExtends(m, Ev(data));
      }
    }
  }

  /** The fall-through branch keeps the tick invariant. */
  lemma FallThroughPreservesInv(m: Machine, data: Event)
    requires Inv(m)
    ensures Inv(FallThrough(m, data).m)
  {
    FallThroughExtends(m, data);
    FallThroughFields(m, data);
  }

  /** Handling an event only appends to the logs, sends mixer calls to the current channel, and changes no table. */
  lemma DispatchExtends(m: Machine, data: Event)
    ensures Extends(m, Dispatch(m, data).m)
  {
    var controlName := FindControlByData(m.doc, data);
    PlayKeyFallsThrough(m, data);
    TransportControls(m, data);
    if controlName == Some(PLAY_KEY) {
      FallThroughExtends(Transport(m, Unpause), data);
    } else if !IsExclusiveControl(controlName) {
      FallThroughExtends(m, data);
    }
  }

  /** Handling an event keeps the tick invariant: soundboard and mixer select the same channel, 0 .. 7. */
  lemma DispatchPreservesInv(m: Machine, data: Event)
    requires Inv(m)
    ensures Inv(Dispatch(m, data).m)
  {
    DispatchExtends(m, data);
    var controlName := FindControlByData(m.doc, data);
    if !IsExclusiveControl(controlName) {
      var m1 := if controlName == Some(PLAY_KEY) then Transport(m, Unpause) else m;
      FallThroughPreservesInv(m1, data);
    }
  }

  /** Pause, stop and fade-out send one call to the current channel and change nothing else. */
  lemma TransportControls(m: Machine, data: Event)
    ensures FindControlByData(m.doc, data) == Some(PAUSE_KEY) ==>
      Dispatch(m, data) == Step(m.(commands := m.commands + [Command(m.current_channel, Pause)]), Continue)
    ensures FindControlByData(m.doc, data) == Some(STOP_KEY) ==>
      Dispatch(m, data) == Step(m.(commands := m.commands + [Command(m.current_channel, Stop)]), Continue)
    ensures FindControlByData(m.doc, data) == Some(FADEOUT_KEY) ==>
      Dispatch(m, data) == Step(m.(commands := m.commands + [Command(m.current_channel, Fadeout(500))]), Continue)
  {
  }

  /**
   * The test-mode key flips `testing_mode` and paints its own button green
   * (60) when the mode is now on, red (3) when it is now off.
   */
  lemma ToggleTestMode(m: Machine, data: Event)
    requires FindControlByData(m.doc, data) == Some(TOGGLE_TESTMODE_KEY)
    ensures Dispatch(m, data) == Step(m.(testing_mode := !m.testing_mode,
      writes := m.writes + [Write(DEFAULT_STATUS, data[1], if !m.testing_mode then 60 else 3)]), Continue)
  {
  }

  /** Only the test-mode key changes `testing_mode`. */
  lemma TestingModeOnlyByToggle(m: Machine, data: Event)
    requires Dispatch(m, data).m.testing_mode != m.testing_mode
    ensures FindControlByData(m.doc, data) == Some(TOGGLE_TESTMODE_KEY)
  {
    var controlName := FindControlByData(m.doc, data);
    if !IsExclusiveControl(controlName) {
      var m1 := if controlName == Some(PLAY_KEY) then Transport(m, Unpause) else m;
      FallThroughFields(m1, data);
    }
  }

  /**
   * The toggle, pause, stop and fade-out controls never consult the audio
   * table or the channel rack: replacing both changes nothing else.
   */
  lemma ControlsIgnoreAudiosAndRack(m: Machine, data: Event, audios: OMap<Slot>, rack: seq<Event>)
    requires IsExclusiveControl(FindControlByData(m.doc, data))
    ensures var m' := m.(doc := m.doc.(audios := audios, channel_rack := rack));
      Dispatch(m', data) == Step(Dispatch(m, data).m.(doc := m'.doc), Continue)
  {
  }

  /**
   * The play key unpauses the current channel and then goes on exactly as
   * an event that matched no control at all.
   */
  lemma PlayKeyFallsThrough(m: Machine, data: Event)
    ensures FindControlByData(m.doc, data) == Some(PLAY_KEY) ==>
      Dispatch(m, data) == FallThrough(m.(commands := m.commands + [Command(m.current_channel, Unpause)]), data)
    ensures !IsExclusiveControl(FindControlByData(m.doc, data)) && FindControlByData(m.doc, data) != Some(PLAY_KEY) ==>
      Dispatch(m, data) == FallThrough(m, data)
  {
  }

  /**
   * An audio match wins over the rack: the channel stays as it is, and
   * outside an assignment the audio is played on the current channel with
   * `test_only` set to the test mode.
   */
  lemma AudioHitWinsOverRack(m: Machine, data: Event)
    requires IsAudioHit(FindAudioByData(m.doc, data))
    ensures var s := FallThrough(m, data);
      s.flow != Break && s.m.selected_channel == m.selected_channel && s.m.current_channel == m.current_channel
    ensures !m.unassigned ==> (FallThrough(m, data) ==
      Step(if m.notForTesting && m.testing_mode then m
           else m.(commands := m.commands + [Command(m.current_channel, Play(FindAudioByData(m.doc, data).value))]),
           Continue))
  {
  }

  /**
   * An assigned audio pressed while an assignment is pending cancels it:
   * nothing is played, no table changes, and unless the repaint raised the
   * pending assignment is `false` and `unassigned` is cleared.
   */
  lemma AssignedAudioCancels(m: Machine, data: Event)
    requires IsAudioHit(FindAudioByData(m.doc, data)) && m.unassigned
    ensures var s := FallThrough(m, data);
      s.m.commands == m.commands && s.m.doc.audios == m.doc.audios && s.m.doc.keys == m.doc.keys
      && s.m.doc.channel_rack == m.doc.channel_rack && s.m.testing_mode == m.testing_mode
    ensures var s := FallThrough(m, data);
      s.flow == Continue <==> (forall i :: 0 <= i < |m.doc.audios| ==> m.doc.audios[i].1.Ev?)
    ensures var s := FallThrough(m, data);
      s.flow == Continue ==> !s.m.unassigned && s.m.doc.needs_to_be_assigned == False
  {
    AudioPaintShape(m.doc.audios, "orange");
  }

  /**
   * The reload of `init` and of a cancel, when every audio entry holds an
   * event: it finishes, clears the pending assignment, and makes one write
   * per rack entry, grid note, painted control, audio entry and rack entry.
   */
  lemma ReloadShape(m: Machine, active: int)
    requires forall i :: 0 <= i < |m.doc.audios| ==> m.doc.audios[i].1.Ev?
    ensures Reload(m, active).flow == Continue
    ensures Reload(m, active).m.doc == m.doc.(needs_to_be_assigned := False)
    ensures |Reload(m, active).m.writes| ==
      |m.writes| + |m.doc.channel_rack| + GRID_SIZE + |KeyColorWrites(m.doc.keys)| + |m.doc.audios| + |m.doc.channel_rack|
  {
    ReloadResult(m, active);
    assert |AudioPaint(m.doc.audios, "orange").writes| == |m.doc.audios| by {
      AudioPaintShape(m.doc.audios, "orange");
    }
    assert |RackColorWrites(m.doc.channel_rack, active)| == |m.doc.channel_rack| by {
      RackColorWritesAt(m.doc.channel_rack, active);
    }
    assert |AllOffWrites(m.doc.channel_rack)| == |m.doc.channel_rack| + GRID_SIZE by {
      AllOffWritesShape(m.doc.channel_rack);
    }
  }

  /** In the reload, after the all-off and control writes, every assigned audio is painted orange (31), in order. */
  lemma ReloadPaintsAudiosOrange(m: Machine, active: int)
    requires forall i :: 0 <= i < |m.doc.audios| ==> m.doc.audios[i].1.Ev?
    ensures var w := Reload(m, active).m.writes;
      var n := |m.writes| + |m.doc.channel_rack| + GRID_SIZE + |KeyColorWrites(m.doc.keys)|;
      |w| >= n + |m.doc.audios|
      && forall i :: n <= i < n + |m.doc.audios| ==> w[i] == Write(DEFAULT_STATUS, m.doc.audios[i - n].1.event[1], 31)
  {
    var audios := m.doc.audios;
    var p := AudioPaint(audios, "orange").writes;
    var q := RackColorWrites(m.doc.channel_rack, active);
    ReloadResult(m, active);
    assert |p| == |audios| by {
      AudioPaintShape(audios, "orange");
    }
    assert |AllOffWrites(m.doc.channel_rack)| == |m.doc.channel_rack| + GRID_SIZE by {
      AllOffWritesShape(m.doc.channel_rack);
    }
    assert ColorCode("orange") == Some(31);
    var prefix := m.writes + (AllOffWrites(m.doc.channel_rack) + KeyColorWrites(m.doc.keys));
    var w := Reload(m, active).m.writes;
    assert w == prefix + p + q;
    var n := |prefix|;
    forall i | n <= i < n + |audios|
      ensures w[i] == Write(DEFAULT_STATUS, audios[i - n].1.event[1], 31)
    {
      AudioPaintAt(audios, "orange", i - n);
      ConcatAt(prefix, p, q, i - n);
    }
  }

  /** The reload ends with one write per rack entry: light green (56) at `active`, light red (1) elsewhere. */
  lemma ReloadHighlightsRack(m: Machine, active: int)
    requires forall i :: 0 <= i < |m.doc.audios| ==> m.doc.audios[i].1.Ev?
    ensures var w := Reload(m, active).m.writes; var rack := m.doc.channel_rack;
      |w| >= |rack| &&
      forall i :: 0 <= i < |rack| ==>
        w[|w| - |rack| + i] == Write(rack[i][0], rack[i][1], if i == active then 56 else 1)
  {
    var rack := m.doc.channel_rack;
    var q := RackColorWrites(rack, active);
    ReloadResult(m, active);
    RackColorWritesAt(rack, active);
    var prefix := m.writes + (AllOffWrites(rack) + KeyColorWrites(m.doc.keys)) + AudioPaint(m.doc.audios, "orange").writes;
    var w := Reload(m, active).m.writes;
    assert w == prefix + q;
    forall i | 0 <= i < |rack|
      ensures w[|w| - |rack| + i] == Write(rack[i][0], rack[i][1], if i == active then 56 else 1)
    {
      assert w[|prefix| + i] == q[i];
    }
  }

  /** The reload with no `false` audio entry, as one update of the soundboard state. */
  lemma ReloadResult(m: Machine, active: int)
    requires forall i :: 0 <= i < |m.doc.audios| ==> m.doc.audios[i].1.Ev?
    ensures Reload(m, active) == Step(m.(doc := m.doc.(needs_to_be_assigned := False),
      writes := m.writes + (AllOffWrites(m.doc.channel_rack) + KeyColorWrites(m.doc.keys))
        + AudioPaint(m.doc.audios, "orange").writes + RackColorWrites(m.doc.channel_rack, active)), Continue)
  {
    var p := AudioPaint(m.doc.audios, "orange");
    assert p.complete by {
      AudioPaintShape(m.doc.audios, "orange");
    }
    var painted := Emit(Emit(m, AllOffWrites(m.doc.channel_rack) + KeyColorWrites(m.doc.keys)), p.writes);
    assert SoundboardSpec.SetAsNeedsToBeAssigned(painted, False)
      == Step(painted.(doc := painted.doc.(needs_to_be_assigned := False)), Continue);
  }

  /** Indexing into the second half of the middle part of `a + (b + c) + d`. */
  lemma ConcatAtMiddle<T>(a: seq<T>, b: seq<T>, c: seq<T>, d: seq<T>, i: nat)
    requires i < |c|
    ensures (a + (b + c) + d)[|a| + |b| + i] == c[i]
  {
  }

  /** Indexing into the middle part of a three-part concatenation. */
  lemma ConcatAt<T>(a: seq<T>, b: seq<T>, c: seq<T>, i: nat)
    requires i < |b|
    ensures (a + b + c)[|a| + i] == b[i]
  {
  }

  /** `unassigned` goes from true to false only through a cancel, which plays nothing. */
  lemma UnassignedClearedOnlyByCancel(m: Machine, data: Event)
    requires m.unassigned && !Dispatch(m, data).m.unassigned
    ensures !IsExclusiveControl(FindControlByData(m.doc, data))
    ensures IsAudioHit(FindAudioByData(m.doc, data))
    ensures forall c :: c in Dispatch(m, data).m.commands ==> c in m.commands || c.op == Unpause
  {
    var controlName := FindControlByData(m.doc, data);
    var m1 := if controlName == Some(PLAY_KEY) then Transport(m, Unpause) else m;
    ReloadExtends(m1, m1.selected_channel);
    FallThroughKeepsUnassigned(m1, data);
  }

  /** Outside an audio press, the fall-through branch never clears `unassigned`. */
  lemma FallThroughKeepsUnassigned(m: Machine, data: Event)
    ensures m.unassigned && !IsAudioHit(FindAudioByData(m.doc, data)) ==> FallThrough(m, data).m.unassigned
  {
  }

  /**
   * A rack press with non-zero velocity switches soundboard and mixer to the
   * 0-based index of the entry and highlights it, unless `selected_channel - 1`
   * equals the 1-based index, in which case the batch ends unchanged.
   */
  lemma ChannelSwitch(m: Machine, data: Event)
    requires !IsAudioHit(FindAudioByData(m.doc, data)) && data[2] != 0
    requires FindChannelByData(m.doc, data).Some?
    ensures var c := FindChannelByData(m.doc, data).value;
      m.selected_channel - 1 == c ==> FallThrough(m, data) == Step(m, Break)
    ensures var c := FindChannelByData(m.doc, data).value; var s := FallThrough(m, data);
      m.selected_channel - 1 != c ==>
        s.flow == Continue && s.m.selected_channel == c - 1 && s.m.current_channel == c - 1
        && 0 <= c - 1 < |m.doc.channel_rack|
        && s.m.writes == m.writes + RackColorWrites(m.doc.channel_rack, c - 1)
        && s.m.doc == m.doc && s.m.unassigned == m.unassigned && s.m.commands == m.commands
  {
  }

  /**
   * An event that is no control, audio or rack entry and has non-zero
   * velocity starts an assignment: the pending assignment becomes exactly
   * that event, `unassigned` becomes true, no table changes, and the LEDs
   * get all-off, then each assigned audio red (3), then the event's note
   * green (60).
   */
  lemma UnclassifiedStartsAssignment(m: Machine, data: Event)
    requires !IsAudioHit(FindAudioByData(m.doc, data)) && data[2] != 0
    requires FindChannelByData(m.doc, data).None?
    requires forall i :: 0 <= i < |m.doc.audios| ==> m.doc.audios[i].1.Ev?
    ensures var s := FallThrough(m, data);
      s.flow == Continue && s.m.unassigned && s.m.doc.needs_to_be_assigned == Ev(data)
      && s.m.doc.keys == m.doc.keys && s.m.doc.audios == m.doc.audios && s.m.doc.channel_rack == m.doc.channel_rack
      && s.m.selected_channel == m.selected_channel && s.m.commands == m.commands
    ensures var s := FallThrough(m, data); var rack := m.doc.channel_rack; var audios := m.doc.audios;
      s.m.writes == m.writes + (AllOffWrites(rack) + AudioPaint(audios, "red").writes)
        + [Write(DEFAULT_STATUS, data[1], 60)]
      && |s.m.writes| == |m.writes| + |rack| + GRID_SIZE + |audios| + 1
    ensures var s := FallThrough(m, data); var n := |m.writes| + |m.doc.channel_rack| + GRID_SIZE;
      forall i :: n <= i < n + |m.doc.audios| ==>
        s.m.writes[i] == Write(DEFAULT_STATUS, m.doc.audios[i - n].1.event[1], 3)
  {
    var rack := m.doc.channel_rack;
    var audios := m.doc.audios;
    var p := AudioPaint(audios, "red").writes;
    AssignmentResult(m, data);
    assert |p| == |audios| by {
      AudioPaintShape(audios, "red");
    }
    assert |AllOffWrites(rack)| == |rack| + GRID_SIZE by {
      AllOffWritesShape(rack);
    }
    var w := FallThrough(m, data).m.writes;
    var n := |m.writes| + |rack| + GRID_SIZE;
    assert ColorCode("red") == Some(3);
    forall i | n <= i < n + |audios|
      ensures w[i] == Write(DEFAULT_STATUS, audios[i - n].1.event[1], 3)
    {
      AudioPaintAt(audios, "red", i - n);
      ConcatAtMiddle(m.writes, AllOffWrites(rack), p, [Write(DEFAULT_STATUS, data[1], 60)], i - n);
    }
  }

  /** A new assignment with no `false` audio entry, as one update of the soundboard state. */
  lemma AssignmentResult(m: Machine, data: Event)
    requires !IsAudioHit(FindAudioByData(m.doc, data)) && data[2] != 0
    requires FindChannelByData(m.doc, data).None?
    requires forall i :: 0 <= i < |m.doc.audios| ==> m.doc.audios[i].1.Ev?
    ensures FallThrough(m, data) == Step(m.(doc := m.doc.(needs_to_be_assigned := Ev(data)), unassigned := true,
      writes := m.writes + (AllOffWrites(m.doc.channel_rack) + AudioPaint(m.doc.audios, "red").writes)
        + [Write(DEFAULT_STATUS, data[1], 60)]), Continue)
  {
    SetAsNeedsToBeAssignedResult(m, data);
  }

  /** `set_as_needs_to_be_assigned(data)` with no `false` audio entry, as one update of the soundboard state. */
  lemma SetAsNeedsToBeAssignedResult(m: Machine, data: Event)
    requires forall i :: 0 <= i < |m.doc.audios| ==> m.doc.audios[i].1.Ev?
    ensures SoundboardSpec.SetAsNeedsToBeAssigned(m, Ev(data)) == Step(m.(doc := m.doc.(needs_to_be_assigned := Ev(data)),
      writes := m.writes + (AllOffWrites(m.doc.channel_rack) + AudioPaint(m.doc.audios, "red").writes)
        + [Write(DEFAULT_STATUS, data[1], 60)]), Continue)
  {
    assert AudioPaint(m.doc.audios, "red").complete by {
      AudioPaintShape(m.doc.audios, "red");
    }
    ColorWritesInPalette(data[1], "green", DEFAULT_STATUS);
  }

  /**
   * A zero-velocity event never changes the selected channel, never ends
   * the batch, and never starts an assignment: the pending assignment stays
   * or is cleared, and `unassigned` does not become true.
   */
  lemma ZeroVelocityEvent(m: Machine, data: Event)
    requires data[2] == 0
    ensures var s := Dispatch(m, data);
      s.flow != Break && s.m.selected_channel == m.selected_channel && s.m.current_channel == m.current_channel
      && (s.m.doc.needs_to_be_assigned == m.doc.needs_to_be_assigned || s.m.doc.needs_to_be_assigned == False)
      && (s.m.unassigned ==> m.unassigned)
  {
    var controlName := FindControlByData(m.doc, data);
    if !IsExclusiveControl(controlName) {
      var m1 := if controlName == Some(PLAY_KEY) then Transport(m, Unpause) else m;
      FallThroughFields(m1, data);
    }
  }

  // One batch

  /** `loop` never changes the controls, the audio table or the channel rack. */
  lemma {:induction false} RunBatchKeepsTables(m: Machine, events: seq<MidiEvent>)
    ensures var r := RunBatch(m, events).m;
      r.doc.keys == m.doc.keys && r.doc.audios == m.doc.audios && r.doc.channel_rack == m.doc.channel_rack
    decreases |events|
  {
    if events != [] {
      DispatchExtends(m, events[0].data);
      var s := Dispatch(m, events[0].data);
      if s.flow == Continue {
        RunBatchKeepsTables(s.m, events[1..]);
      }
    }
  }

  /** `loop` keeps the tick invariant. */
  lemma {:induction false} RunBatchPreservesInv(m: Machine, events: seq<MidiEvent>)
    requires Inv(m)
    ensures Inv(RunBatch(m, events).m)
    decreases |events|
  {
    if events != [] {
      DispatchPreservesInv(m, events[0].data);
      var s := Dispatch(m, events[0].data);
      if s.flow == Continue {
        RunBatchPreservesInv(s.m, events[1..]);
      }
    }
  }

  /** Over a whole batch the logs only grow and every mixer call goes to one of the eight channels. */
  lemma {:induction false} RunBatchCommandsInRange(m: Machine, events: seq<MidiEvent>)
    requires Inv(m)
    ensures var r := RunBatch(m, events).m;
      m.writes <= r.writes && m.commands <= r.commands
      && forall k :: |m.commands| <= k < |r.commands| ==> 0 <= r.commands[k].channel < CHANNEL_COUNT
    decreases |events|
  {
    if events != [] {
      var s := Dispatch(m, events[0].data);
      DispatchPreservesInv(m, events[0].data);
      DispatchExtends(m, events[0].data);
      if s.flow == Continue {
        RunBatchCommandsInRange(s.m, events[1..]);
        var r := RunBatch(s.m, events[1..]).m;
        forall k | |m.commands| <= k < |r.commands|
          ensures 0 <= r.commands[k].channel < CHANNEL_COUNT
        {
          if k < |s.m.commands| {
            assert r.commands[k] == s.m.commands[k];
          }
        }
      }
    }
  }

  /**
   * A batch of zero-velocity events never changes the selected channel and
   * never starts an assignment.
   */
  lemma {:induction false} ZeroVelocityBatch(m: Machine, events: seq<MidiEvent>)
    requires forall k :: 0 <= k < |events| ==> events[k].data[2] == 0
    ensures var r := RunBatch(m, events);
      r.flow != Break && r.m.selected_channel == m.selected_channel && r.m.current_channel == m.current_channel
      && (r.m.doc.needs_to_be_assigned == m.doc.needs_to_be_assigned || r.m.doc.needs_to_be_assigned == False)
      && (r.m.unassigned ==> m.unassigned)
    decreases |events|
  {
    if events != [] {
      ZeroVelocityEvent(m, events[0].data);
      var s := Dispatch(m, events[0].data);
      if s.flow == Continue {
        ZeroVelocityBatch(s.m, events[1..]);
      }
    }
  }

  /**
   * Handling `first + rest` is handling `first` and then, only if it neither
   * broke nor raised, `rest`: events after a `break` are dropped.
   */
  lemma {:induction false} RunBatchAppend(m: Machine, first: seq<MidiEvent>, rest: seq<MidiEvent>)
    ensures var s := RunBatch(m, first);
      RunBatch(m, first + rest) == if s.flow == Continue then RunBatch(s.m, rest) else s
    decreases |first|
  {
    if first == [] {
      assert first + rest == rest;
    } else {
      assert (first + rest)[0] == first[0];
      assert (first + rest)[1..] == first[1..] + rest;
      var s := Dispatch(m, first[0].data);
      if s.flow == Continue {
        RunBatchAppend(s.m, first[1..], rest);
      }
    }
  }
}

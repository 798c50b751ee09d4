/**
 * The assignment workflow across the two programs: the control loop starts
 * an assignment, the web application commits it between ticks, and the
 * loop, which never re-reads the pending flag into `unassigned`, treats the
 * next press of the new button as a cancel. Both sides keep every event
 * list on at most one file, unless a file is named `""`; the same button
 * pressed at another velocity is another event list.
 */
module Workflow {
  import opened Wrappers
  import opened OrderedMap
  import opened Document
  import opened Resolver
  import opened Devices
  import opened Colors
  import opened SoundboardSpec
  import opened SoundboardLemmas
  import opened App

  /** After a commit, the committed event is found under the committed name. */
  lemma CommittedAudioFound(doc: Doc, audiofile: string)
    requires doc.needs_to_be_assigned.Ev?
    requires FindAudioByData(doc, doc.needs_to_be_assigned.event).None?
    ensures FindAudioByData(Committed(doc, audiofile), doc.needs_to_be_assigned.event) == Some(audiofile)
  {
    var d := doc.needs_to_be_assigned.event;
    var audios := Committed(doc, audiofile).audios;
    var r := FindAudioByData(Committed(doc, audiofile), d);
    assert exists i :: 0 <= i < |audios| && audios[i].0 == audiofile && audios[i].1 == Ev(d);
    assert r.Some?;
  }

  /**
   * The commit does not return the loop to idle: `unassigned` stays true,
   * so pressing the newly assigned button cancels instead of playing;
   * no mixer call is made and the audio table is left as committed.
   */
  lemma CommitThenPressCancels(m: Machine, audiofile: string)
    requires m.unassigned && m.doc.needs_to_be_assigned.Ev? && audiofile != ""
    requires FindAudioByData(m.doc, m.doc.needs_to_be_assigned.event).None?
    requires FindControlByData(m.doc, m.doc.needs_to_be_assigned.event).None?
    ensures var d := m.doc.needs_to_be_assigned.event; var m' := m.(doc := Committed(m.doc, audiofile));
      m'.unassigned && Dispatch(m', d).m.commands == m.commands && Dispatch(m', d).m.doc.audios == m'.doc.audios
  {
    var d := m.doc.needs_to_be_assigned.event;
    var m' := m.(doc := Committed(m.doc, audiofile));
    assert FindAudioByData(m'.doc, d) == Some(audiofile) by {
      CommittedAudioFound(m.doc, audiofile);
    }
    assert FindControlByData(m'.doc, d) == FindControlByData(m.doc, d) by {
      assert m'.doc.keys == m.doc.keys;
    }
    assert Dispatch(m', d) == FallThrough(m', d) by {
      PlayKeyFallsThrough(m', d);
    }
    AssignedAudioCancels(m', d);
  }

  // Distinct assignments

  /**
   * No two audio entries hold the same event list, and a pending event is
   * held by no audio entry. The lists are compared whole, velocity
   * included, as the lookups compare them.
   */
  ghost predicate AssignmentsDistinct(d: Doc)
  {
    (forall i, j :: 0 <= i < j < |d.audios| && d.audios[i].1.Ev? ==> d.audios[i].1 != d.audios[j].1)
    && (d.needs_to_be_assigned.Ev? ==> forall i :: 0 <= i < |d.audios| ==> d.audios[i].1 != d.needs_to_be_assigned)
  }

  /** No audio file is named `""`, the one name `if audio_name:` rejects. */
  ghost predicate NoEmptyAudioName(d: Doc)
  {
    forall i :: 0 <= i < |d.audios| ==> d.audios[i].0 != ""
  }

  /**
   * The fall-through branch keeps the pending value, clears it, or stores
   * an event that no audio entry accepted by `if audio_name:` holds.
   */
  lemma FallThroughPendingUnheld(m: Machine, data: Event)
    ensures var p := FallThrough(m, data).m.doc.needs_to_be_assigned;
      p == m.doc.needs_to_be_assigned || p == False
      || (p == Ev(data) && !IsAudioHit(FindAudioByData(m.doc, data)))
  {
    if IsAudioHit(FindAudioByData(m.doc, data)) {
      if m.unassigned {
        ReloadExtends(m, m.selected_channel);
      }
    } else if data[2] != 0 && FindChannelByData(m.doc, data).None? {
      SetAsNeedsToBeAssignedExtends(m, Ev(data));
    }
  }

  /** Handling one event keeps the assignments distinct when no audio is named `""`. */
  lemma DispatchKeepsAssignmentsDistinct(m: Machine, data: Event)
    requires AssignmentsDistinct(m.doc) && NoEmptyAudioName(m.doc)
    ensures AssignmentsDistinct(Dispatch(m, data).m.doc) && NoEmptyAudioName(Dispatch(m, data).m.doc)
  {
    DispatchExtends(m, data);
    var controlName := FindControlByData(m.doc, data);
    PlayKeyFallsThrough(m, data);
    if controlName == Some(PLAY_KEY) {
      FallThroughPendingUnheld(Transport(m, Unpause), data);
    } else if !IsExclusiveControl(controlName) {
      FallThroughPendingUnheld(m, data);
    } else {
      TransportControls(m, data);
    }
  }

  /** A whole batch keeps the assignments distinct when no audio is named `""`. */
  lemma {:induction false} RunBatchKeepsAssignmentsDistinct(m: Machine, events: seq<MidiEvent>)
    requires AssignmentsDistinct(m.doc) && NoEmptyAudioName(m.doc)
    ensures AssignmentsDistinct(RunBatch(m, events).m.doc)
    decreases |events|
  {
    if events != [] {
      DispatchKeepsAssignmentsDistinct(m, events[0].data);
      var s := Dispatch(m, events[0].data);
      if s.flow == Continue {
        RunBatchKeepsAssignmentsDistinct(s.m, events[1..]);
      }
    }
  }

  /** Committing the pending value keeps the assignments distinct. */
  lemma CommittedKeepsAssignmentsDistinct(doc: Doc, audiofile: string)
    requires WellFormed(doc) && AssignmentsDistinct(doc)
    ensures AssignmentsDistinct(Committed(doc, audiofile))
  {
    var a := doc.audios;
    var r := Committed(doc, audiofile).audios;
    assert Distinct(Names(r));
  }

  /**
   * An event that is no audio hit for `if audio_name:` (no file holds it,
   * or the first one is named `""`), with non-zero velocity and no control
   * or rack entry, is stored as pending.
   */
  lemma UnheldPressIsPending(m: Machine, d: Event)
    requires !IsAudioHit(FindAudioByData(m.doc, d)) && d[2] != 0
    requires FindControlByData(m.doc, d).None? && d !in m.doc.channel_rack
    ensures Dispatch(m, d).m.doc == m.doc.(needs_to_be_assigned := Ev(d))
  {
    assert Dispatch(m, d) == FallThrough(m, d) by {
      PlayKeyFallsThrough(m, d);
    }
    SetAsNeedsToBeAssignedExtends(m, Ev(d));
  }

  /** Committing, under a new file, a pending event some file already holds breaks distinctness. */
  lemma CommitHeldEventDuplicates(doc: Doc, audiofile: string, k: nat)
    requires audiofile !in Names(doc.audios) && k < |doc.audios|
    requires doc.needs_to_be_assigned.Ev? && doc.audios[k].1 == doc.needs_to_be_assigned
    ensures !AssignmentsDistinct(Committed(doc, audiofile))
  {
    CommittedNewFileAppends(doc, audiofile);
    var r := Committed(doc, audiofile).audios;
    assert r[k].1 == r[|doc.audios|].1;
  }

  /**
   * The document side of the first commit: `d` committed under `""` is
   * held by that file alone, and looking `d` up finds `""`.
   */
  lemma EmptyNameCommitted(doc: Doc, d: Event)
    requires doc.audios == [] && doc.needs_to_be_assigned == Ev(d)
    ensures var doc1 := Committed(doc, "");
      doc1.audios == [("", Ev(d))] && AssignmentsDistinct(doc1) && FindAudioByData(doc1, d) == Some("")
  {
    CommittedNewFileAppends(doc, "");
    CommittedAudioFound(doc, "");
  }

  /**
   * A file named `""` breaks distinctness. With an event pending and no
   * audio assigned, committing it under `""` stores it there; pressing it
   * again is not an audio hit for `if audio_name:`, so it becomes pending
   * again, and committing it under "x.wav" puts two files on the same event.
   */
  lemma EmptyNameDuplicatesAssignment(m: Machine, d: Event)
    requires m.doc.audios == [] && m.doc.needs_to_be_assigned == Ev(d) && d[2] != 0
    requires FindControlByData(m.doc, d).None? && d !in m.doc.channel_rack
    ensures var m1 := m.(doc := Committed(m.doc, ""));
      var m2 := Dispatch(m1, d).m;
      AssignmentsDistinct(m1.doc) && m2.doc.needs_to_be_assigned == Ev(d)
      && !AssignmentsDistinct(Committed(m2.doc, "x.wav"))
  {
    var m1 := m.(doc := Committed(m.doc, ""));
    EmptyNameCommitted(m.doc, d);
    UnheldPressIsPending(m1, d);
    var doc2 := m1.doc.(needs_to_be_assigned := Ev(d));
    assert Names(doc2.audios) == [""];
    CommitHeldEventDuplicates(doc2, "x.wav", 0);
  }

  /**
   * The document side of a second file on one button: with one file
   * holding `e`, committing a different event `d` under "b.wav" appends it
   * and keeps the event lists distinct.
   */
  lemma OtherVelocityCommitted(doc: Doc, e: Event, d: Event)
    requires doc.audios == [("a.wav", Ev(e))] && doc.needs_to_be_assigned == Ev(d) && d != e
    ensures Committed(doc, "b.wav").audios == [("a.wav", Ev(e)), ("b.wav", Ev(d))]
    ensures AssignmentsDistinct(Committed(doc, "b.wav"))
  {
    assert Names(doc.audios) == ["a.wav"];
    CommittedNewFileAppends(doc, "b.wav");
  }

  /**
   * Distinct event lists are not distinct buttons. With "a.wav" on `e`, a
   * press `d` of the same status and note at another velocity is no audio
   * hit, so it becomes pending; committing it under "b.wav" puts a second
   * file on the same button while the event lists stay distinct.
   */
  lemma OtherVelocitySecondFile(m: Machine, e: Event, d: Event)
    requires m.doc.audios == [("a.wav", Ev(e))]
    requires d[0] == e[0] && d[1] == e[1] && d[2] != e[2] && d[2] != 0
    requires FindControlByData(m.doc, d).None? && d !in m.doc.channel_rack
    ensures var doc := Committed(Dispatch(m, d).m.doc, "b.wav");
      doc.audios == [("a.wav", Ev(e)), ("b.wav", Ev(d))] && AssignmentsDistinct(doc)
  {
    assert FindAudioByData(m.doc, d).None? by {
      assert m.doc.audios[0].1 != Ev(d);
    }
    UnheldPressIsPending(m, d);
    OtherVelocityCommitted(m.doc.(needs_to_be_assigned := Ev(d)), e, d);
  }

  // One assignment from start to cancel, in the program's own key names,
  // for any eight-entry rack that does not contain the new button.

  const STOP_EVENT: Event := [176, 10, 127, 0]
  const NEW_EVENT: Event := [144, 99, 127, 0]

  ghost predicate ScenarioRack(rack: seq<Event>)
  {
    |rack| == CHANNEL_COUNT && NEW_EVENT !in rack
  }

  function ScenarioStart(rack: seq<Event>): Machine
  {
    Machine(Doc([(STOP_KEY, KeyEntry(STOP_EVENT, "red"))], [], rack, False), false, 0, false, 0, false, [], [])
  }

  /** The stop control stops the current channel and changes nothing in the document. */
  lemma ScenarioStop(rack: seq<Event>)
    requires ScenarioRack(rack)
    ensures Dispatch(ScenarioStart(rack), STOP_EVENT) ==
      Step(ScenarioStart(rack).(commands := [Command(0, Stop)]), Continue)
  {
    TransportControls(ScenarioStart(rack), STOP_EVENT);
  }

  /** The state after the unknown button `NEW_EVENT` is pressed. */
  function ScenarioPending(rack: seq<Event>): Machine
  {
    Dispatch(ScenarioStart(rack), NEW_EVENT).m
  }

  /**
   * An unknown button becomes the pending assignment and is painted green
   * after the 8 + 128 off writes.
   */
  lemma ScenarioBeginAssignment(rack: seq<Event>)
    requires ScenarioRack(rack)
    ensures Dispatch(ScenarioStart(rack), NEW_EVENT).flow == Continue
    ensures ScenarioPending(rack).unassigned && ScenarioPending(rack).doc.needs_to_be_assigned == Ev(NEW_EVENT)
    ensures ScenarioPending(rack).doc.audios == [] && ScenarioPending(rack).doc.keys == ScenarioStart(rack).doc.keys
    ensures ScenarioPending(rack).commands == []
    ensures |ScenarioPending(rack).writes| == 8 + GRID_SIZE + 1
    ensures ScenarioPending(rack).writes[8 + GRID_SIZE] == Write(DEFAULT_STATUS, 99, 60)
  {
    var m := ScenarioStart(rack);
    assert FindControlByData(m.doc, NEW_EVENT).None? by {
      assert m.doc.keys[0].1.event != NEW_EVENT;
    }
    assert FindAudioByData(m.doc, NEW_EVENT).None?;
    assert FindChannelByData(m.doc, NEW_EVENT).None?;
    PlayKeyFallsThrough(m, NEW_EVENT);
    UnclassifiedStartsAssignment(m, NEW_EVENT);
  }

  /** Committing "kick.wav" stores the pending event under it and clears the pending value. */
  lemma ScenarioCommit(rack: seq<Event>)
    requires ScenarioRack(rack)
    ensures Committed(ScenarioPending(rack).doc, "kick.wav").audios == [("kick.wav", Ev(NEW_EVENT))]
    ensures Committed(ScenarioPending(rack).doc, "kick.wav").needs_to_be_assigned == False
  {
    ScenarioBeginAssignment(rack);
  }

  /** The next press of the new button, still `unassigned`, cancels: nothing is played. */
  lemma ScenarioPressAfterCommit(rack: seq<Event>)
    requires ScenarioRack(rack)
    ensures var m := ScenarioPending(rack); var m' := m.(doc := Committed(m.doc, "kick.wav"));
      m'.unassigned && Dispatch(m', NEW_EVENT).m.commands == [] && !Dispatch(m', NEW_EVENT).m.unassigned
  {
    ScenarioBeginAssignment(rack);
    var m := ScenarioPending(rack);
    var m' := m.(doc := Committed(m.doc, "kick.wav"));
    assert FindControlByData(m.doc, NEW_EVENT).None? by {
      assert m.doc.keys[0].1.event != NEW_EVENT;
    }
    assert FindAudioByData(m.doc, NEW_EVENT).None?;
    CommitThenPressCancels(m, "kick.wav");
    ScenarioCommit(rack);
    AssignedAudioCancels(m', NEW_EVENT);
  }
}

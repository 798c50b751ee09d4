/**
 * The two document operations of the web application: listing the audio
 * files that have no button yet, and committing the pending assignment.
 */
module App {
  import opened Wrappers
  import opened OrderedMap
  import opened Document

  /**
   * `get_unassigned_audios`: the available files (the directory listing,
   * passed in) that are not keys of `audios`, in their original order and
   * with their multiplicity.
   */
  function UnassignedAudios(available: seq<string>, audios: OMap<Slot>): (r: seq<string>)
    ensures forall x :: x in r <==> x in available && x !in Names(audios)
    ensures forall x :: multiset(r)[x] == if x in Names(audios) then 0 else multiset(available)[x]
    ensures |r| <= |available|
  {
    if available == [] then []
    else
      var rest := UnassignedAudios(available[1..], audios);
      assert available == [available[0]] + available[1..];
      if available[0] in Names(audios) then rest else [available[0]] + rest
  }

  /** The filter keeps order: filtering a concatenation filters each part. */
  lemma {:induction false} UnassignedAudiosAppend(a: seq<string>, b: seq<string>, audios: OMap<Slot>)
    ensures UnassignedAudios(a + b, audios) == UnassignedAudios(a, audios) + UnassignedAudios(b, audios)
  {
    if a != [] {
      assert (a + b)[0] == a[0];
      assert (a + b)[1..] == a[1..] + b;
      UnassignedAudiosAppend(a[1..], b, audios);
    } else {
      assert a + b == b;
    }
  }

  /**
   * The document after `update_unassigned_audio(audiofile)`: the pending
   * value (an event, or `false` when nothing was pending) is stored under
   * `audiofile`, overwriting any earlier value in place; the pending value
   * becomes `false`; nothing else changes.
   */
  function Committed(doc: Doc, audiofile: string): (r: Doc)
    ensures Lookup(r.audios, audiofile) == Some(doc.needs_to_be_assigned)
    ensures forall g :: g != audiofile ==> Lookup(r.audios, g) == Lookup(doc.audios, g)
    ensures Names(r.audios) == if audiofile in Names(doc.audios) then Names(doc.audios) else Names(doc.audios) + [audiofile]
    ensures r.needs_to_be_assigned == False
    ensures r.keys == doc.keys && r.channel_rack == doc.channel_rack
    ensures WellFormed(doc) ==> WellFormed(r)
  {
    doc.(audios := Put(doc.audios, audiofile, doc.needs_to_be_assigned), needs_to_be_assigned := False)
  }

  /** Committing under a file that has no entry yet appends one entry at the end. */
  lemma CommittedNewFileAppends(doc: Doc, audiofile: string)
    requires audiofile !in Names(doc.audios)
    ensures Committed(doc, audiofile).audios == doc.audios + [(audiofile, doc.needs_to_be_assigned)]
  {
    var a := doc.audios;
    var r := Committed(doc, audiofile).audios;
    forall i | 0 <= i < |a|
      ensures r[i] == a[i]
    {
      assert Names(a)[i] == a[i].0 && Names(r)[i] == r[i].0;
    }
  }

  /** `update_unassigned_audio(audiofile)`, with no guard on what was pending. */
  method UpdateUnassignedAudio(store: Store, audiofile: string)
    modifies store
    ensures store.doc == Committed(old(store.doc), audiofile)
  {
    var prevData := store.doc;
    prevData := prevData.(audios := Put(prevData.audios, audiofile, prevData.needs_to_be_assigned));
    prevData := prevData.(needs_to_be_assigned := False);
    store.doc := prevData;
  }

  /** A committed file is no longer offered. */
  lemma CommittedNotOffered(available: seq<string>, doc: Doc, audiofile: string)
    ensures audiofile !in UnassignedAudios(available, Committed(doc, audiofile).audios)
    ensures forall g :: g != audiofile ==>
      (g in UnassignedAudios(available, Committed(doc, audiofile).audios) <==> g in UnassignedAudios(available, doc.audios))
  {
  }
}

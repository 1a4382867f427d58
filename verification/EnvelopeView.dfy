/** The composed view of one envelope (routes/envelope.go): what each viewer is shown, and which calls it costs. */
module EnvelopeView {
  import opened Common

  datatype Header = Header(
    id: string, owner: string, title: string, status: string, orderPolicy: string, version: int, createdAt: string,
    originName: string, originRef: string)

  datatype Slot = Slot(
    id: string, orderIndex: int, role: string, flow: string, requiredLoa: string, status: string, jobID: string,
    signatureID: string, signedDocRef: string, identityRef: string, signerName: string, returnURL: string)

  datatype DocRef = DocRef(documentID: string, contentHash: string, filename: string)

  datatype Detail = Detail(envelope: Header, slots: seq<Slot>, documents: seq<DocRef>)

  datatype Job = Job(state: string, signatureID: string, containerID: string)

  datatype ComposedSlot = ComposedSlot(slot: Slot, state: string, containerID: string, you: bool)

  datatype View = View(envelope: Header, slots: seq<ComposedSlot>, documents: seq<DocRef>)

  /** A call to another service made while composing. */
  datatype Call =
    | JobStatus(jobID: string)
    | ViewerName
    | CaptureName(envelopeID: string, slotID: string, name: string)
    | Metadata(documentID: string)

  /**
   The viewer and the answers of the services around: `keyOf` is the identity key of a code, `serial` the
   viewer's; the job of the slot at a position, the name of the document at a position and the viewer's own name
   ("" when it cannot be read) may be anything.
   */
  datatype World = World(
    sub: string, serial: string, keyOf: string -> string, signflow: bool, job: (nat, string) -> Option<Job>,
    name: string, documents: bool, filename: (nat, string) -> Option<string>)

  // The view, position by position.

  function IsYou(w: World, d: Detail, s: Slot): bool {
    || (s.identityRef != "" && w.keyOf(s.identityRef) == w.serial)
    || (s.identityRef == "" && d.envelope.owner == w.sub)
  }

  function Masked(w: World, d: Detail, s: Slot): Slot {
    if d.envelope.owner == w.sub then s
    else s.(identityRef := "", returnURL := if IsYou(w, d, s) then s.returnURL else "")
  }

  function Asks(w: World, s: Slot): bool {
    s.jobID != "" && w.signflow
  }

  function Joined(c: ComposedSlot, job: Job): ComposedSlot {
    c.(slot := if job.signatureID != "" then c.slot.(signatureID := job.signatureID) else c.slot,
       state := job.state,
       containerID := if job.containerID != "" then job.containerID else c.containerID)
  }

  function ComposedAt(w: World, d: Detail, i: nat): ComposedSlot
    requires i < |d.slots|
  {
    var s := d.slots[i];
    var c := ComposedSlot(Masked(w, d, s), "", s.signedDocRef, IsYou(w, d, s));
    if Asks(w, s) && w.job(i, s.jobID).Some? then Joined(c, w.job(i, s.jobID).value) else c
  }

  function ComposedSlots(w: World, d: Detail): seq<ComposedSlot> {
    seq(|d.slots|, i requires 0 <= i < |d.slots| => ComposedAt(w, d, i))
  }

  function StatusCalls(w: World, slots: seq<Slot>): seq<Call> {
    if slots == [] then [] else
      var last := slots[|slots| - 1];
      StatusCalls(w, slots[..|slots| - 1]) + if Asks(w, last) then [JobStatus(last.jobID)] else []
  }

  predicate Nameless(c: ComposedSlot) {
    c.you && c.slot.signerName == ""
  }

  /** The slot the viewer's name is captured on: their first that has none. */
  function NameSlot(slots: seq<ComposedSlot>): (r: Option<nat>)
    ensures r.Some? ==>
              r.value < |slots| && Nameless(slots[r.value]) && forall j | 0 <= j < r.value :: !Nameless(slots[j])
    ensures r.None? ==> forall j | 0 <= j < |slots| :: !Nameless(slots[j])
  {
    if slots == [] then None
    else if Nameless(slots[0]) then Some(0)
    else
      var r := NameSlot(slots[1..]);
      if r.None? then None else Some(r.value + 1)
  }

  function Named(w: World, slots: seq<ComposedSlot>): seq<ComposedSlot> {
    var at := NameSlot(slots);
    if at.None? || w.name == "" then slots
    else slots[at.value := slots[at.value].(slot := slots[at.value].slot.(signerName := w.name))]
  }

  function NameCalls(w: World, id: string, slots: seq<ComposedSlot>): seq<Call> {
    var at := NameSlot(slots);
    if at.None? then []
    else if w.name == "" then [ViewerName]
    else [ViewerName, CaptureName(id, slots[at.value].slot.id, w.name)]
  }

  function DocumentAt(w: World, d: Detail, i: nat): DocRef
    requires i < |d.documents|
  {
    var ref := d.documents[i];
    var name := w.filename(i, ref.documentID);
    if name.Some? then ref.(filename := name.value) else ref
  }

  function Documents(w: World, d: Detail): seq<DocRef> {
    if !w.documents then d.documents
    else seq(|d.documents|, i requires 0 <= i < |d.documents| => DocumentAt(w, d, i))
  }

  function DocumentCalls(w: World, docs: seq<DocRef>): seq<Call> {
    if !w.documents then [] else seq(|docs|, i requires 0 <= i < |docs| => Metadata(docs[i].documentID))
  }

  function Viewed(w: World, d: Detail): View {
    View(d.envelope, Named(w, ComposedSlots(w, d)), Documents(w, d))
  }

  function Called(w: World, id: string, d: Detail): seq<Call> {
    StatusCalls(w, d.slots) + NameCalls(w, id, ComposedSlots(w, d)) + DocumentCalls(w, d.documents)
  }

  // The composition, in place.

  /** One slot before its job is joined: marked as the viewer's or not, and masked for anyone but the owner. */
  method ComposeSlot(w: World, d: Detail, slots: array<ComposedSlot>, i: nat)
    requires i < |d.slots| == slots.Length
    modifies slots
    ensures slots[i] == ComposedSlot(Masked(w, d, d.slots[i]), "", d.slots[i].signedDocRef, IsYou(w, d, d.slots[i]))
    ensures forall k | 0 <= k < slots.Length && k != i :: slots[k] == old(slots[k])
  {
    var s := d.slots[i];
    slots[i] := ComposedSlot(s, "", "", false);
    slots[i] := slots[i].(containerID := s.signedDocRef);
    slots[i] := slots[i].(you := (s.identityRef != "" && w.keyOf(s.identityRef) == w.serial)
      || (s.identityRef == "" && d.envelope.owner == w.sub));
    if d.envelope.owner != w.sub {
      slots[i] := slots[i].(slot := slots[i].slot.(identityRef := ""));
      if !slots[i].you {
        slots[i] := slots[i].(slot := slots[i].slot.(returnURL := ""));
      }
    }
  }

  method JoinJob(slots: array<ComposedSlot>, i: nat, job: Job)
    requires i < slots.Length
    modifies slots
    ensures slots[i] == Joined(old(slots[i]), job)
    ensures forall k | 0 <= k < slots.Length && k != i :: slots[k] == old(slots[k])
  {
    slots[i] := slots[i].(state := job.state);
    if job.signatureID != "" {
      slots[i] := slots[i].(slot := slots[i].slot.(signatureID := job.signatureID));
    }
    if job.containerID != "" {
      slots[i] := slots[i].(containerID := job.containerID);
    }
  }

  method ComposeSlots(w: World, d: Detail) returns (slots: array<ComposedSlot>, calls: seq<Call>)
    ensures fresh(slots) && slots[..] == ComposedSlots(w, d) && calls == StatusCalls(w, d.slots)
  {
    slots, calls := new ComposedSlot[|d.slots|], [];
    for i := 0 to |d.slots|
      invariant calls == StatusCalls(w, d.slots[..i])
      invariant forall k | 0 <= k < i :: slots[k] == ComposedAt(w, d, k)
    {
      var s := d.slots[i];
      assert d.slots[..i + 1][..i] == d.slots[..i];
      ComposeSlot(w, d, slots, i);
      if s.jobID == "" || !w.signflow {
        continue;
      }
      calls := calls + [JobStatus(s.jobID)];
      var job := w.job(i, s.jobID);
      if job.None? {
        continue;
      }
      JoinJob(slots, i, job.value);
    }
    assert d.slots[..|d.slots|] == d.slots;
  }

  method CaptureViewerName(w: World, id: string, slots: array<ComposedSlot>) returns (calls: seq<Call>)
    modifies slots
    ensures slots[..] == Named(w, old(slots[..])) && calls == NameCalls(w, id, old(slots[..]))
  {
    ghost var was := slots[..];
    calls := [];
    for i := 0 to slots.Length
      invariant slots[..] == was && calls == []
      invariant forall j | 0 <= j < i :: !Nameless(was[j])
    {
      if !slots[i].you || slots[i].slot.signerName != "" {
        continue;
      }
      assert NameSlot(was) == Some(i);
      calls := [ViewerName];
      if w.name != "" {
        slots[i] := slots[i].(slot := slots[i].slot.(signerName := w.name));
        calls := calls + [CaptureName(id, slots[i].slot.id, w.name)];
      }
      break;
    }
  }

  method GetEnvelope(w: World, id: string, d: Detail) returns (v: View, calls: seq<Call>)
    ensures v == Viewed(w, d) && calls == Called(w, id, d)
  {
    var slots, statusCalls := ComposeSlots(w, d);
    var nameCalls := CaptureViewerName(w, id, slots);
    var docs, docCalls := d.documents, [];
    if w.documents {
      docs := [];
      for i := 0 to |d.documents|
        invariant |docs| == |docCalls| == i
        invariant forall k | 0 <= k < i ::
                    docs[k] == DocumentAt(w, d, k) && docCalls[k] == Metadata(d.documents[k].documentID)
      {
        var ref := d.documents[i];
        docCalls := docCalls + [Metadata(ref.documentID)];
        var name := w.filename(i, ref.documentID);
        if name.Some? {
          ref := ref.(filename := name.value);
        }
        docs := docs + [ref];
      }
      assert docs == Documents(w, d);
    }
    assert docCalls == DocumentCalls(w, d.documents);
    v, calls := View(d.envelope, slots[..], docs), statusCalls + nameCalls + docCalls;
  }

  // What a viewer learns.

  /**
   The two details differ at most in the slots' identity codes, each matching the viewer alike, and in the return
   addresses of slots that are not the viewer's.
   */
  ghost predicate AlikeFor(w: World, a: Detail, b: Detail) {
    && a.envelope == b.envelope && a.documents == b.documents && |a.slots| == |b.slots|
    && forall i | 0 <= i < |a.slots| :: SlotsAlike(w, a, b, i)
  }

  ghost predicate SlotsAlike(w: World, a: Detail, b: Detail, i: nat)
    requires i < |a.slots| && i < |b.slots|
  {
    var s, t := a.slots[i], b.slots[i];
    && s.(identityRef := "", returnURL := "") == t.(identityRef := "", returnURL := "")
    && IsYou(w, a, s) == IsYou(w, b, t)
    && (IsYou(w, a, s) ==> s.returnURL == t.returnURL)
  }

  lemma {:induction false} StatusCallsAlike(w: World, s: seq<Slot>, t: seq<Slot>)
    requires |s| == |t| && forall i | 0 <= i < |s| :: s[i].jobID == t[i].jobID
    ensures StatusCalls(w, s) == StatusCalls(w, t)
  {
    if s != [] {
      StatusCallsAlike(w, s[..|s| - 1], t[..|t| - 1]);
    }
  }

  /** A viewer who is not the owner cannot tell such details apart, nor can the services called for them. */
  lemma OthersCodesDoNotShow(w: World, id: string, a: Detail, b: Detail)
    requires a.envelope.owner != w.sub && AlikeFor(w, a, b)
    ensures Viewed(w, a) == Viewed(w, b) && Called(w, id, a) == Called(w, id, b)
  {
    forall i | 0 <= i < |a.slots|
      ensures ComposedAt(w, a, i) == ComposedAt(w, b, i) && a.slots[i].jobID == b.slots[i].jobID
    {
      assert SlotsAlike(w, a, b, i);
      var s, t := a.slots[i], b.slots[i];
      assert s.(identityRef := "", returnURL := "").jobID == t.(identityRef := "", returnURL := "").jobID;
      assert s.(identityRef := "", returnURL := "").signedDocRef == t.(identityRef := "", returnURL := "").signedDocRef;
      assert s.(identityRef := "") == s.(identityRef := "", returnURL := "").(returnURL := s.returnURL);
      assert t.(identityRef := "") == t.(identityRef := "", returnURL := "").(returnURL := t.returnURL);
      assert Masked(w, a, s) == Masked(w, b, t);
    }
    assert ComposedSlots(w, a) == ComposedSlots(w, b);
    StatusCallsAlike(w, a.slots, b.slots);
    assert Documents(w, a) == Documents(w, b);
  }

  lemma SlotComposed(w: World, d: Detail, i: nat)
    requires i < |d.slots|
    ensures var c, s := ComposedAt(w, d, i), d.slots[i];
            && c.you == IsYou(w, d, s) && c.slot.id == s.id && c.slot.signerName == s.signerName
            && c.slot.identityRef == (if d.envelope.owner == w.sub then s.identityRef else "")
            && c.slot.returnURL == (if d.envelope.owner == w.sub || c.you then s.returnURL else "")
            && (s.signedDocRef != "" ==> c.containerID != "")
  {}

  /** Capturing a name changes nothing but one name. */
  lemma NamedKeeps(w: World, slots: seq<ComposedSlot>, i: nat)
    requires i < |slots|
    ensures |Named(w, slots)| == |slots|
    ensures var c := Named(w, slots)[i];
            c == slots[i] || (Nameless(slots[i])
              && c == slots[i].(slot := slots[i].slot.(signerName := c.slot.signerName)))
  {}

  /**
   The job answer that comes back for the slot at this position, if it has a job and a signing service is there to
   ask.
   */
  function JobOf(w: World, d: Detail, i: nat): Option<Job>
    requires i < |d.slots|
  {
    if d.slots[i].jobID != "" && w.signflow then w.job(i, d.slots[i].jobID) else None
  }

  lemma SlotJoined(w: World, d: Detail, i: nat)
    requires i < |d.slots|
    ensures var c, s, job := ComposedAt(w, d, i), d.slots[i], JobOf(w, d, i);
            && c.state == (if job.Some? then job.value.state else "")
            && c.slot.signatureID ==
               (if job.Some? && job.value.signatureID != "" then job.value.signatureID else s.signatureID)
            && c.containerID ==
               (if job.Some? && job.value.containerID != "" then job.value.containerID else s.signedDocRef)
            && c.slot.(identityRef := s.identityRef, returnURL := s.returnURL, signatureID := s.signatureID) == s
  {}

  /**
   What is shown of each slot, in its place: the live state, the signature and the container of its job where the job
   has them, else the slot's own signature and durable container; the slot is the viewer's by their code, or without a
   code by owning the envelope; codes and others' return addresses only to the owner; all else as stored, but for a
   name captured on a slot of the viewer that had none.
   */
  lemma SlotsAsShown(w: World, d: Detail, i: nat)
    requires i < |d.slots|
    ensures |Viewed(w, d).slots| == |d.slots|
    ensures var c, s, job := Viewed(w, d).slots[i], d.slots[i], JobOf(w, d, i);
            && c.state == (if job.Some? then job.value.state else "")
            && c.slot.signatureID ==
               (if job.Some? && job.value.signatureID != "" then job.value.signatureID else s.signatureID)
            && c.containerID ==
               (if job.Some? && job.value.containerID != "" then job.value.containerID else s.signedDocRef)
    ensures var c, s := Viewed(w, d).slots[i], d.slots[i];
            && c.you == ((s.identityRef != "" && w.keyOf(s.identityRef) == w.serial)
                         || (s.identityRef == "" && d.envelope.owner == w.sub))
            && c.slot.identityRef == (if d.envelope.owner == w.sub then s.identityRef else "")
            && c.slot.returnURL == (if d.envelope.owner == w.sub || c.you then s.returnURL else "")
            && c.slot.(identityRef := s.identityRef, returnURL := s.returnURL, signatureID := s.signatureID,
                       signerName := s.signerName) == s
            && (s.signerName != "" || !c.you ==> c.slot.signerName == s.signerName)
            && (s.signedDocRef != "" ==> c.containerID != "")
  {
    SlotComposed(w, d, i);
    SlotJoined(w, d, i);
    NamedKeeps(w, ComposedSlots(w, d), i);
  }

  lemma CapturesStandAlone(w: World, id: string, d: Detail, j: nat)
    requires j < |Called(w, id, d)| && Called(w, id, d)[j].CaptureName?
    ensures j == |StatusCalls(w, d.slots)| + 1 && NameSlot(ComposedSlots(w, d)).Some? && w.name != ""
    ensures Called(w, id, d)[j] ==
            CaptureName(id, ComposedSlots(w, d)[NameSlot(ComposedSlots(w, d)).value].slot.id, w.name)
  {
    NoCaptureInStatusCalls(w, d.slots);
  }

  lemma NamelessAt(w: World, d: Detail, i: nat)
    requires i < |d.slots|
    ensures Nameless(ComposedSlots(w, d)[i]) <==> IsYou(w, d, d.slots[i]) && d.slots[i].signerName == ""
    ensures ComposedSlots(w, d)[i].slot.id == d.slots[i].id
  {}

  /** At most one name is captured: the viewer's, on their first slot without one, and shown there. */
  lemma NameIsCapturedOnce(w: World, id: string, d: Detail, j: nat, k: nat)
    requires j < |Called(w, id, d)| && Called(w, id, d)[j].CaptureName?
    requires k < |Called(w, id, d)| && Called(w, id, d)[k].CaptureName?
    ensures j == k
    ensures exists i :: 0 <= i < |d.slots|
              && Called(w, id, d)[j] == CaptureName(id, d.slots[i].id, w.name) && w.name != ""
              && IsYou(w, d, d.slots[i]) && d.slots[i].signerName == ""
              && (forall m | 0 <= m < i :: !(IsYou(w, d, d.slots[m]) && d.slots[m].signerName == ""))
              && Viewed(w, d).slots[i].slot.signerName == w.name
  {
    CapturesStandAlone(w, id, d, j);
    CapturesStandAlone(w, id, d, k);
    var i := NameSlot(ComposedSlots(w, d)).value;
    forall m | 0 <= m <= i
      ensures Nameless(ComposedSlots(w, d)[m]) <==> IsYou(w, d, d.slots[m]) && d.slots[m].signerName == ""
    {
      NamelessAt(w, d, m);
    }
    NamelessAt(w, d, i);
    assert Viewed(w, d).slots[i].slot.signerName == w.name;
  }

  lemma {:induction false} NoCaptureInStatusCalls(w: World, slots: seq<Slot>)
    ensures forall m | 0 <= m < |StatusCalls(w, slots)| :: StatusCalls(w, slots)[m].JobStatus?
  {
    if slots != [] {
      NoCaptureInStatusCalls(w, slots[..|slots| - 1]);
    }
  }

  // Which calls it costs.

  /** The calls for the states of these slots are one for each of those positions, in order. */
  ghost predicate StatusAt(w: World, slots: seq<Slot>, at: seq<nat>, calls: seq<Call>) {
    && |at| == |calls| && Increasing(at)
    && (forall k | 0 <= k < |at| :: at[k] < |slots| && calls[k] == JobStatus(slots[at[k]].jobID))
    && forall i: nat | i < |slots| :: i in at <==> slots[i].jobID != "" && w.signflow
  }

  lemma StatusAtGrows(w: World, slots: seq<Slot>, last: Slot, at: seq<nat>, calls: seq<Call>)
    requires StatusAt(w, slots, at, calls)
    ensures if last.jobID != "" && w.signflow
            then StatusAt(w, slots + [last], at + [|slots|], calls + [JobStatus(last.jobID)])
            else StatusAt(w, slots + [last], at, calls)
  {
    forall i: nat | i < |slots|
      ensures i in at + [|slots|] <==> i in at
    {
    }
  }

  lemma {:induction false} StatusCallsAt(w: World, slots: seq<Slot>) returns (at: seq<nat>)
    ensures StatusAt(w, slots, at, StatusCalls(w, slots))
  {
    at := [];
    if slots != [] {
      var n := |slots| - 1;
      var init := StatusCallsAt(w, slots[..n]);
      StatusAtGrows(w, slots[..n], slots[n], init, StatusCalls(w, slots[..n]));
      assert slots == slots[..n] + [slots[n]];
      at := init + if slots[n].jobID != "" && w.signflow then [n] else [];
      assert init + [] == init && StatusCalls(w, slots[..n]) + [] == StatusCalls(w, slots[..n]);
    }
  }

  /** A slot of the viewer's that has no name yet. */
  predicate AwaitsName(w: World, d: Detail, i: nat)
    requires i < |d.slots|
  {
    var s := d.slots[i];
    && s.signerName == ""
    && ((s.identityRef != "" && w.keyOf(s.identityRef) == w.serial)
        || (s.identityRef == "" && d.envelope.owner == w.sub))
  }

  lemma NameSlotExactly(w: World, d: Detail)
    ensures var slot := NameSlot(ComposedSlots(w, d));
            && (slot.Some? ==> slot.value < |d.slots| && AwaitsName(w, d, slot.value))
            && (slot.Some? ==> forall j | 0 <= j < slot.value :: !AwaitsName(w, d, j))
            && (slot.None? ==> forall j | 0 <= j < |d.slots| :: !AwaitsName(w, d, j))
  {
    forall j | 0 <= j < |d.slots|
      ensures Nameless(ComposedSlots(w, d)[j]) <==> AwaitsName(w, d, j)
    {
      NamelessAt(w, d, j);
    }
  }

  /** The first slot of the viewer's that has no name yet. */
  ghost predicate FirstAwaitsName(w: World, d: Detail, i: nat) {
    i < |d.slots| && AwaitsName(w, d, i) && forall j | 0 <= j < i :: !AwaitsName(w, d, j)
  }

  /** The viewer's name is shown exactly on their first slot without one, if it can be read, and on no other. */
  lemma NameIsShownExactly(w: World, d: Detail, i: nat)
    requires i < |d.slots|
    ensures Viewed(w, d).slots[i].slot.signerName ==
            if FirstAwaitsName(w, d, i) then w.name else d.slots[i].signerName
  {
    NameSlotExactly(w, d);
    SlotComposed(w, d, i);
    NamedKeeps(w, ComposedSlots(w, d), i);
  }

  /** The documents in their places, each with the name found for it, else with the name it came with. */
  lemma DocumentsAsShown(w: World, d: Detail, i: nat)
    requires i < |d.documents|
    ensures |Viewed(w, d).documents| == |d.documents| && Viewed(w, d).envelope == d.envelope
    ensures var ref, found := d.documents[i], w.filename(i, d.documents[i].documentID);
            Viewed(w, d).documents[i] ==
            DocRef(ref.documentID, ref.contentHash, if w.documents && found.Some? then found.value else ref.filename)
  {}

  /** The name is asked for exactly if some slot of the viewer's has none, and kept exactly if it can be read. */
  lemma NameCallsExactly(w: World, id: string, d: Detail, i: nat)
    requires FirstAwaitsName(w, d, i)
    ensures NameCalls(w, id, ComposedSlots(w, d)) ==
            [ViewerName] + if w.name != "" then [CaptureName(id, d.slots[i].id, w.name)] else []
  {
    NameSlotExactly(w, d);
    NamelessAt(w, d, i);
  }

  /** The calls for the viewer's name, stated on the slots alone. */
  ghost predicate AsksForName(w: World, id: string, d: Detail, calls: seq<Call>) {
    && ((forall j | 0 <= j < |d.slots| :: !AwaitsName(w, d, j)) ==> calls == [])
    && (forall i: nat | FirstAwaitsName(w, d, i) ::
          calls == [ViewerName] + if w.name != "" then [CaptureName(id, d.slots[i].id, w.name)] else [])
  }

  /**
   The calls, in order: one for the state of each slot that has a job, in slot order, while there is a signing service;
   one for the viewer's name and one to keep it, if a slot of theirs has none; one for each document's name, in order,
   while there is a document service.
   */
  lemma CallsExactly(w: World, id: string, d: Detail) returns (at: seq<nat>, names: seq<Call>)
    ensures Increasing(at) && forall k | 0 <= k < |at| :: at[k] < |d.slots|
    ensures forall i: nat | i < |d.slots| :: i in at <==> d.slots[i].jobID != "" && w.signflow
    ensures AsksForName(w, id, d, names)
    ensures var calls := Called(w, id, d);
            && |calls| == |at| + |names| + (if w.documents then |d.documents| else 0)
            && (forall k | 0 <= k < |at| :: calls[k] == JobStatus(d.slots[at[k]].jobID))
            && calls[|at|..|at| + |names|] == names
            && forall k | |at| + |names| <= k < |calls| ::
                 calls[k] == Metadata(d.documents[k - |at| - |names|].documentID)
  {
    at := StatusCallsAt(w, d.slots);
    names := NameCalls(w, id, ComposedSlots(w, d));
    NameSlotExactly(w, d);
    forall i: nat | FirstAwaitsName(w, d, i)
      ensures names == [ViewerName] + if w.name != "" then [CaptureName(id, d.slots[i].id, w.name)] else []
    {
      NameCallsExactly(w, id, d, i);
    }
  }
}

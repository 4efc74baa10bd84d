/** One uninterrupted attempt, as the code runs it: every step it takes is a step of the
    interleaved machine, so what holds over all runs of the machine holds of it. */
module Orchestrator {
  import opened Types
  import opened Enrichment
  import EnrichmentCache
  import Outbox

  // ---------------------------------------------------------------- runs of the machine

  ghost predicate RunsTo(s: State, acts: seq<Action>, t: State) {
    Enrichment.Valid(s, acts) && Exec(s, acts) == t
  }

  ghost predicate Reached(s: State, t: State) {
    exists acts :: RunsTo(s, acts, t)
  }

  lemma {:induction false} OneMoreStep(s: State, acts: seq<Action>, a: Action)
    requires Enrichment.Valid(s, acts) && Enabled(Exec(s, acts), a)
    ensures RunsTo(s, acts + [a], Apply(Exec(s, acts), a))
    decreases |acts|
  {
    if acts == [] {
      assert [a][1..] == [] && acts + [a] == [a];
    } else {
      assert (acts + [a])[1..] == acts[1..] + [a];
      OneMoreStep(Apply(s, acts[0]), acts[1..], a);
    }
  }

  lemma ReachedStep(s: State, t: State, a: Action)
    requires Reached(s, t) && Enabled(t, a)
    ensures Reached(s, Apply(t, a))
  {
    var acts :| RunsTo(s, acts, t);
    OneMoreStep(s, acts, a);
  }

  lemma ReachedStart(s: State)
    ensures Reached(s, s)
  {
    assert RunsTo(s, [], s);
  }

  // ---------------------------------------------------------------- what an attempt comes to

  /** What the calls of one attempt come to: the read, the writes, the two stage calls if they are
      made (`None` is an exception), and the publish. */
  datatype Calls = Calls(
    readRaises: bool, prepare: Call,
    llm: Option<ListingOptions>, llmWrite: Call, cv: Option<seq<DefectInfo>>, cvWrite: Call,
    finish: Call, publish: Call)

  /** The call had its effect, whether it then raised or not. */
  predicate Applied(call: Call) { call != Raises(false) }

  /** A stage that returns is in the working document even if its write raises. */
  function AfterLlm(state: EnrichedListing, calls: Calls): EnrichedListing {
    if !state.llmDone && calls.llm.Some? then state.(options := calls.llm.value, llmDone := true) else state
  }

  function AfterCv(state: EnrichedListing, calls: Calls): EnrichedListing {
    if !state.cvDone && calls.cv.Some? then state.(defects := calls.cv.value, cvDone := true) else state
  }

  function AfterStages(state: EnrichedListing, calls: Calls): EnrichedListing {
    AfterCv(AfterLlm(state, calls), calls)
  }

  predicate LlmRaises(state: EnrichedListing, calls: Calls) {
    !state.llmDone && (calls.llm.None? || calls.llmWrite.Raises?)
  }

  predicate CvRaises(state: EnrichedListing, calls: Calls) {
    !state.cvDone && (calls.cv.None? || calls.cvWrite.Raises?)
  }

  predicate LlmWrites(state: EnrichedListing, calls: Calls) {
    !state.llmDone && calls.llm.Some? && Applied(calls.llmWrite)
  }

  predicate CvWrites(state: EnrichedListing, calls: Calls) {
    !state.cvDone && calls.cv.Some? && Applied(calls.cvWrite)
  }

  function Put(docs: Documents, writes: bool, document: EnrichedListing): Documents {
    if writes then docs[document.raw.externalId := document] else docs
  }

  /** The store after both stages: each write stores the working document as it then is. */
  function StagesStore(docs: Documents, state: EnrichedListing, calls: Calls, llmFirst: bool): Documents {
    if llmFirst then
      Put(Put(docs, LlmWrites(state, calls), AfterLlm(state, calls)), CvWrites(state, calls), AfterStages(state, calls))
    else
      Put(Put(docs, CvWrites(state, calls), AfterCv(state, calls)), LlmWrites(state, calls), AfterStages(state, calls))
  }

  /** Which stage gets the lock first is seen in the store exactly when both stages return and the
      write of just one of them is applied: the later write carries the result of the earlier one,
      stored or not. */
  lemma OrderMattersIff(docs: Documents, state: EnrichedListing, calls: Calls)
    ensures StagesStore(docs, state, calls, true) != StagesStore(docs, state, calls, false) <==>
      && !state.llmDone && !state.cvDone && calls.llm.Some? && calls.cv.Some?
      && Applied(calls.llmWrite) != Applied(calls.cvWrite)
  {
    var id, one, other :=
      state.raw.externalId, StagesStore(docs, state, calls, true), StagesStore(docs, state, calls, false);
    assert id in one && id in other ==> one[id] == other[id] || one != other;
    assert AfterLlm(AfterCv(state, calls), calls) == AfterStages(state, calls);
  }

  /** How an attempt ends: what it returns (`None` when it raises), the store, and what it published. */
  datatype Ended = Ended(result: Option<EnrichedListing>, docs: Documents, published: seq<Publication>)

  function PublishOutcome(docs: Documents, document: EnrichedListing, listing: RawListing, eventId: EventId,
                          calls: Calls): Ended {
    Ended(if calls.publish.Returns? then Some(document) else None, docs,
          if Applied(calls.publish) then [Publication(eventId, listing, document)] else [])
  }

  /** From the working document of a finished pair of stages on. */
  function FinishOutcome(docs: Documents, state: EnrichedListing, listing: RawListing, eventId: EventId,
                         calls: Calls, now: Time): Ended {
    var final := state.(enrichedAt := Some(now));
    if !state.IsFullyEnriched() then Ended(None, docs, [])
    else if calls.finish.Raises? then Ended(None, Put(docs, calls.finish.applied, final), [])
    else PublishOutcome(Put(docs, true, final), final, listing, eventId, calls)
  }

  function PendingOutcome(docs: Documents, existing: Option<EnrichedListing>, listing: RawListing, eventId: EventId,
                          calls: Calls, llmFirst: bool, now: Time): Ended {
    var state := Prepared(listing, existing);
    if calls.prepare.Raises? then Ended(None, Put(docs, calls.prepare.applied, state), [])
    else
      var stored := StagesStore(Put(docs, true, state), state, calls, llmFirst);
      if LlmRaises(state, calls) || CvRaises(state, calls) then Ended(None, stored, [])
      else FinishOutcome(stored, AfterStages(state, calls), listing, eventId, calls, now)
  }

  function EnrichOutcome(docs: Documents, listing: RawListing, eventId: EventId, calls: Calls, llmFirst: bool,
                         now: Time): Ended {
    var existing := Lookup(docs, listing.externalId);
    if calls.readRaises then Ended(None, docs, [])
    else if TakesFastPath(existing, listing) then PublishOutcome(docs, existing.value, listing, eventId, calls)
    else PendingOutcome(docs, existing, listing, eventId, calls, llmFirst, now)
  }

  /** Progress on these inputs: the later document has all that the earlier one has finished. */
  predicate KeepsFinished(document: EnrichedListing, later: EnrichedListing) {
    && (document.llmDone ==> later.llmDone && later.options == document.options)
    && (document.cvDone ==> later.cvDone && later.defects == document.defects)
  }

  /** `later` differs from `docs` only where `base` is kept, which has lost no progress there. */
  predicate Carries(docs: Documents, later: Documents, base: EnrichedListing) {
    var id := base.raw.externalId;
    && later - {id} == docs - {id}
    && id in later && later[id].raw == base.raw && KeepsFinished(base, later[id])
  }

  lemma StagesCarry(docs: Documents, state: EnrichedListing, calls: Calls, llmFirst: bool)
    requires Carries(docs, docs, state)
    ensures Carries(docs, StagesStore(docs, state, calls, llmFirst), state)
  {
    assert KeepsFinished(state, AfterLlm(state, calls)) && KeepsFinished(state, AfterCv(state, calls));
    assert KeepsFinished(state, AfterStages(state, calls));
  }

  lemma FinishCarries(docs: Documents, later: Documents, base: EnrichedListing, state: EnrichedListing,
                      listing: RawListing, eventId: EventId, calls: Calls, now: Time)
    requires Carries(docs, later, base) && state.raw == base.raw && KeepsFinished(base, state)
    ensures Carries(docs, FinishOutcome(later, state, listing, eventId, calls, now).docs, base)
  {
  }

  lemma PendingCarries(docs: Documents, existing: Option<EnrichedListing>, listing: RawListing, eventId: EventId,
                       calls: Calls, llmFirst: bool, now: Time)
    requires calls.prepare.Returns?
    ensures Carries(docs, PendingOutcome(docs, existing, listing, eventId, calls, llmFirst, now).docs,
      Prepared(listing, existing))
  {
    var state := Prepared(listing, existing);
    var prepared := Put(docs, true, state);
    StagesCarry(prepared, state, calls, llmFirst);
    var stored := StagesStore(prepared, state, calls, llmFirst);
    assert Carries(docs, stored, state);
    FinishCarries(docs, stored, state, AfterStages(state, calls), listing, eventId, calls, now);
  }

  /** Whatever fails, an attempt on the inputs of the stored document loses none of its progress, and
      it leaves all other documents alone. */
  lemma AttemptKeepsProgress(docs: Documents, listing: RawListing, eventId: EventId, calls: Calls, llmFirst: bool,
                             now: Time)
    ensures var ended, id := EnrichOutcome(docs, listing, eventId, calls, llmFirst, now), listing.externalId;
      && ended.docs - {id} == docs - {id}
      && (id in docs && SameInputs(docs[id], listing) ==>
            id in ended.docs && SameInputs(ended.docs[id], listing) && KeepsFinished(docs[id], ended.docs[id]))
  {
    if calls.prepare.Returns? {
      PendingCarries(docs, Lookup(docs, listing.externalId), listing, eventId, calls, llmFirst, now);
    }
  }

  /** A finished stage is not called again: the attempt comes to the same whatever its call would
      have come to. */
  lemma FinishedStageIsSkipped(docs: Documents, listing: RawListing, eventId: EventId, calls: Calls, other: Calls,
                               llmFirst: bool, now: Time)
    requires listing.externalId in docs && SameInputs(docs[listing.externalId], listing)
    requires calls == other.(llm := calls.llm, llmWrite := calls.llmWrite, cv := calls.cv, cvWrite := calls.cvWrite)
    requires !docs[listing.externalId].llmDone ==> calls.llm == other.llm && calls.llmWrite == other.llmWrite
    requires !docs[listing.externalId].cvDone ==> calls.cv == other.cv && calls.cvWrite == other.cvWrite
    ensures EnrichOutcome(docs, listing, eventId, calls, llmFirst, now)
      == EnrichOutcome(docs, listing, eventId, other, llmFirst, now)
  {
    var state := Prepared(listing, Some(docs[listing.externalId]));
    assert AfterStages(state, calls) == AfterStages(state, other);
    assert StagesStore(Put(docs, true, state), state, calls, llmFirst)
      == StagesStore(Put(docs, true, state), state, other, llmFirst);
  }

  /** Exactly when an attempt succeeds, and then the complete document is stored and published. */
  lemma SucceedsIff(docs: Documents, listing: RawListing, eventId: EventId, calls: Calls, llmFirst: bool, now: Time)
    ensures var ended, existing :=
      EnrichOutcome(docs, listing, eventId, calls, llmFirst, now), Lookup(docs, listing.externalId);
      && (ended.result.Some? <==>
            && !calls.readRaises && calls.publish.Returns?
            && (TakesFastPath(existing, listing) ||
                var state := Prepared(listing, existing);
                calls.prepare.Returns? && calls.finish.Returns? && !LlmRaises(state, calls) && !CvRaises(state, calls)))
      && (ended.result.Some? ==>
            && ended.docs == docs[listing.externalId := ended.result.value] && ended.result.value.IsFullyEnriched()
            && SameInputs(ended.result.value, listing)
            && ended.published == [Publication(eventId, listing, ended.result.value)])
  {
    var existing := Lookup(docs, listing.externalId);
    var state := Prepared(listing, existing);
    assert !LlmRaises(state, calls) && !CvRaises(state, calls) ==> AfterStages(state, calls).IsFullyEnriched();
  }

  /** One of the seven fields that trigger a new enrichment differs. */
  predicate Changed(stored: RawListing, listing: RawListing) {
    || stored.title != listing.title || stored.description != listing.description
    || stored.make != listing.make || stored.model != listing.model || stored.year != listing.year
    || stored.askingPrice != listing.askingPrice || stored.imageUrls != listing.imageUrls
  }

  /** A listing that is new, or changed in one of the seven fields, is enriched from scratch: a
      successful attempt has exactly the results of this attempt's two stage calls, on this listing. */
  lemma ChangedListingIsEnrichedAnew(docs: Documents, listing: RawListing, eventId: EventId, calls: Calls,
                                     llmFirst: bool, now: Time)
    requires listing.externalId in docs ==> Changed(docs[listing.externalId].raw, listing)
    requires EnrichOutcome(docs, listing, eventId, calls, llmFirst, now).result.Some?
    ensures var document := EnrichOutcome(docs, listing, eventId, calls, llmFirst, now).result.value;
      && calls.llm.Some? && calls.cv.Some?
      && document == EnrichedListing(listing, calls.llm.value, calls.cv.value, Some(now), true, true)
  {
    var existing := Lookup(docs, listing.externalId);
    assert !TakesFastPath(existing, listing) && Prepared(listing, existing) == FreshDocument(listing);
  }

  /** A complete document on the same seven fields is published as it is: neither stage is called,
      nothing is written, and an attempt fails only if the read or the publish does. */
  lemma UnchangedListingIsPublished(docs: Documents, listing: RawListing, eventId: EventId, calls: Calls,
                                    llmFirst: bool, now: Time)
    requires listing.externalId in docs && !Changed(docs[listing.externalId].raw, listing)
    requires docs[listing.externalId].llmDone && docs[listing.externalId].cvDone && !calls.readRaises
    ensures var document := docs[listing.externalId];
      EnrichOutcome(docs, listing, eventId, calls, llmFirst, now) ==
        Ended(if calls.publish.Returns? then Some(document) else None, docs,
              if calls.publish == Raises(false) then [] else [Publication(eventId, listing, document)])
  {
  }

  /** An unfinished document on the same seven fields is resumed: a successful attempt has the stored
      results of the stages that were finished, and the calls' results of the others. */
  lemma UnfinishedListingIsResumed(docs: Documents, listing: RawListing, eventId: EventId, calls: Calls,
                                   llmFirst: bool, now: Time)
    requires listing.externalId in docs && !Changed(docs[listing.externalId].raw, listing)
    requires !docs[listing.externalId].llmDone || !docs[listing.externalId].cvDone
    requires EnrichOutcome(docs, listing, eventId, calls, llmFirst, now).result.Some?
    ensures var stored, document := docs[listing.externalId],
                                    EnrichOutcome(docs, listing, eventId, calls, llmFirst, now).result.value;
      && document.raw == listing && document.llmDone && document.cvDone && document.enrichedAt == Some(now)
      && (if stored.llmDone then document.options == stored.options else calls.llm == Some(document.options))
      && (if stored.cvDone then document.defects == stored.defects else calls.cv == Some(document.defects))
  {
  }

  /** Of a fresh start in which one stage raises, the other's result is in the store, if its write
      was applied; so is the unfinished document if neither was. */
  lemma PartialProgressIsStored(docs: Documents, listing: RawListing, eventId: EventId, calls: Calls,
                                llmFirst: bool, now: Time)
    requires listing.externalId in docs ==> Changed(docs[listing.externalId].raw, listing)
    requires !calls.readRaises && calls.prepare.Returns? && (calls.llm.None? || calls.cv.None?)
    ensures var ended := EnrichOutcome(docs, listing, eventId, calls, llmFirst, now);
      && ended.result == None && ended.published == []
      && ended.docs == docs[listing.externalId :=
           if calls.llm.Some? && calls.llmWrite != Raises(false)
           then EnrichedListing(listing, calls.llm.value, [], None, true, false)
           else if calls.cv.Some? && calls.cvWrite != Raises(false)
           then EnrichedListing(listing, NO_OPTIONS, calls.cv.value, None, false, true)
           else FreshDocument(listing)]
  {
    var existing := Lookup(docs, listing.externalId);
    assert !TakesFastPath(existing, listing) && Prepared(listing, existing) == FreshDocument(listing);
  }

  /** What an attempt leaves when the read, the first write or the last one raises: no result and no
      publication, and in the store the document being written if that was applied. */
  lemma RaisingCallLeaves(docs: Documents, listing: RawListing, eventId: EventId, calls: Calls, llmFirst: bool,
                          now: Time)
    requires listing.externalId in docs ==> Changed(docs[listing.externalId].raw, listing)
    ensures var ended, id := EnrichOutcome(docs, listing, eventId, calls, llmFirst, now), listing.externalId;
      && (calls.readRaises ==> ended == Ended(None, docs, []))
      && (!calls.readRaises && calls.prepare.Raises? ==>
            ended == Ended(None, if calls.prepare.applied then docs[id := FreshDocument(listing)] else docs, []))
      && (!calls.readRaises && calls.prepare.Returns? && calls.llm.Some? && calls.cv.Some?
          && calls.llmWrite.Returns? && calls.cvWrite.Returns? && calls.finish.Raises? ==>
            var stamp := if calls.finish.applied then Some(now) else None;
            ended == Ended(None,
              docs[id := EnrichedListing(listing, calls.llm.value, calls.cv.value, stamp, true, true)], []))
  {
    var existing := Lookup(docs, listing.externalId);
    assert !TakesFastPath(existing, listing) && Prepared(listing, existing) == FreshDocument(listing);
  }

  // ---------------------------------------------------------------- the attempt as it runs

  /** The working document is one object, shared by the two stages. */
  class WorkingDocument {
    var value: EnrichedListing

    constructor (document: EnrichedListing)
      ensures value == document
    {
      value := document;
    }
  }

  class EnrichmentOrchestrator {
    var docs: Documents
    /** What was published, latest last: enriched events, and raw events. */
    var published: seq<Publication>
    var ingested: seq<Outbox.Payload>
    ghost const start: State
    ghost var machine: State

    /** The machine has run from the start to where the stores are. */
    ghost predicate Valid()
      reads this
    {
      && Reached(start, machine)
      && machine.docs == docs && machine.publications == set p | p in published
    }

    constructor (stored: Documents, ghost s: State)
      requires s.docs == stored && s.publications == {}
      ensures Valid() && docs == stored && published == [] && ingested == [] && start == s && machine == s
    {
      docs, published, ingested, start, machine := stored, [], [], s, s;
      ReachedStart(s);
    }

    ghost predicate IsAt(t: nat, x: Attempt)
      reads this
    {
      t in machine.attempts && machine.attempts[t] == x
    }

    ghost method Take(a: Action)
      requires Reached(start, machine) && Enabled(machine, a)
      modifies this`machine
      ensures Reached(start, machine) && machine == Apply(old(machine), a)
    {
      ReachedStep(start, machine, a);
      machine := Apply(machine, a);
    }

    /** `eventId` is the generated id of the event. */
    method EnqueueRaw(listing: RawListing, eventId: EventId, requestId: Option<string>)
      requires Valid()
      modifies this
      ensures Valid() && published == old(published)
      ensures docs == old(docs)[listing.externalId := FreshDocument(listing)]
      ensures docs[listing.externalId] ==
        EnrichedListing(listing, ListingOptions([], [], [], None, None), [], None, false, false)
      ensures ingested == old(ingested) + [Outbox.RawEvent(eventId, listing, requestId)]
    {
      docs := docs[listing.externalId := FreshDocument(listing)];
      Take(Action.EnqueueRaw(listing));
      ingested := ingested + [Outbox.RawEvent(eventId, listing, requestId)];
    }

    /** The document an attempt resumes from, written before any stage runs. */
    method PrepareState(listing: RawListing, existing: Option<EnrichedListing>, write: Call, ghost t: nat,
                        ghost eventId: EventId)
      returns (state: WorkingDocument)
      requires Valid() && IsAt(t, Attempt(listing, eventId, Prepare(existing)))
      modifies `docs, `machine
      ensures Valid() && fresh(state) && machine.clock == old(machine.clock)
      ensures state.value == Prepared(listing, existing)
      ensures docs == Put(old(docs), Applied(write), state.value)
      ensures IsAt(t, Attempt(listing, eventId, if write.Raises? then Raised else Stages(state.value,
        if state.value.llmDone then Skipped else Idle, if state.value.cvDone then Skipped else Idle)))
    {
      state := new WorkingDocument(FreshDocument(listing));
      if existing.Some? {
        var sameInputs := EnrichmentFingerprint(existing.value.raw) == EnrichmentFingerprint(listing);
        if sameInputs {
          state.value := state.value.(llmDone := existing.value.llmDone);
          state.value := state.value.(cvDone := existing.value.cvDone);
          state.value := state.value.(options := existing.value.options);
          state.value := state.value.(defects := existing.value.defects);
        }
      }
      if Applied(write) {
        docs := docs[state.value.raw.externalId := state.value];
      }
      Take(if write.Raises? then Raise(t, write.applied) else WritePrepared(t));
    }

    method RunLlm(state: WorkingDocument, calls: Calls, ghost t: nat, ghost x: Attempt,
                  ghost cv: Stage<seq<DefectInfo>>)
      returns (raised: bool)
      requires Valid()
      requires IsAt(t, x.(pc := Stages(state.value, if state.value.llmDone then Skipped else Calling, cv)))
      modifies `docs, `machine, state
      ensures Valid() && machine.clock == old(machine.clock)
      ensures raised <==> LlmRaises(old(state.value), calls)
      ensures state.value == AfterLlm(old(state.value), calls)
      ensures docs == Put(old(docs), LlmWrites(old(state.value), calls), state.value)
      ensures IsAt(t, x.(pc := Stages(state.value,
        if raised then StageFailed else if old(state.value).llmDone then Skipped else Stored, cv)))
    {
      if state.value.llmDone {
        return false;
      }
      if calls.llm.None? {
        Take(LlmRaise(t));
        return true;
      }
      Take(LlmReturn(t, calls.llm.value));
      state.value := state.value.(options := calls.llm.value);
      state.value := state.value.(llmDone := true);
      if Applied(calls.llmWrite) {
        docs := docs[state.value.raw.externalId := state.value];
      }
      Take(if calls.llmWrite.Raises? then LlmStoreRaise(t, calls.llmWrite.applied) else LlmStore(t));
      return calls.llmWrite.Raises?;
    }

    method RunCv(state: WorkingDocument, calls: Calls, ghost t: nat, ghost x: Attempt, ghost llm: Stage<ListingOptions>)
      returns (raised: bool)
      requires Valid()
      requires IsAt(t, x.(pc := Stages(state.value, llm, if state.value.cvDone then Skipped else Calling)))
      modifies `docs, `machine, state
      ensures Valid() && machine.clock == old(machine.clock)
      ensures raised <==> CvRaises(old(state.value), calls)
      ensures state.value == AfterCv(old(state.value), calls)
      ensures docs == Put(old(docs), CvWrites(old(state.value), calls), state.value)
      ensures IsAt(t, x.(pc := Stages(state.value, llm,
        if raised then StageFailed else if old(state.value).cvDone then Skipped else Stored)))
    {
      if state.value.cvDone {
        return false;
      }
      if calls.cv.None? {
        Take(CvRaise(t));
        return true;
      }
      Take(CvReturn(t, calls.cv.value));
      state.value := state.value.(defects := calls.cv.value);
      state.value := state.value.(cvDone := true);
      if Applied(calls.cvWrite) {
        docs := docs[state.value.raw.externalId := state.value];
      }
      Take(if calls.cvWrite.Raises? then CvStoreRaise(t, calls.cvWrite.applied) else CvStore(t));
      return calls.cvWrite.Raises?;
    }

    /** The coroutines of the pending stages start. */
    ghost method StartStages(x: Attempt, state: EnrichedListing, t: nat)
      requires Valid()
      requires IsAt(t,
        x.(pc := Stages(state, if state.llmDone then Skipped else Idle, if state.cvDone then Skipped else Idle)))
      modifies this`machine
      ensures Valid() && machine.clock == old(machine.clock)
      ensures IsAt(t,
        x.(pc := Stages(state, if state.llmDone then Skipped else Calling, if state.cvDone then Skipped else Calling)))
    {
      if !state.llmDone {
        Take(LlmCall(t));
      }
      if !state.cvDone {
        Take(CvCall(t));
      }
    }

    ghost method GatherStages(t: nat)
      requires Valid() && Enabled(machine, Gather(t))
      modifies this`machine
      ensures Valid() && machine.clock == old(machine.clock)
      ensures var x := old(machine.attempts[t]);
        IsAt(t, x.(pc := if x.pc.llm.StageFailed? || x.pc.cv.StageFailed? then Raised else Finalize(x.pc.state)))
    {
      Take(Gather(t));
    }

    /** Both stages start; `llmFirst` says which of them gets the lock first. One stage raising does
        not undo the other. */
    method RunStages(state: WorkingDocument, calls: Calls, llmFirst: bool, ghost t: nat, ghost x: Attempt)
      returns (raised: bool)
      requires Valid()
      requires IsAt(t, x.(pc := Stages(state.value,
        if state.value.llmDone then Skipped else Idle, if state.value.cvDone then Skipped else Idle)))
      modifies `docs, `machine, state
      ensures Valid() && machine.clock == old(machine.clock)
      ensures raised <==> LlmRaises(old(state.value), calls) || CvRaises(old(state.value), calls)
      ensures state.value == AfterStages(old(state.value), calls)
      ensures docs == StagesStore(old(docs), old(state.value), calls, llmFirst)
      ensures IsAt(t, x.(pc := if raised then Raised else Finalize(state.value)))
    {
      StartStages(x, state.value, t);
      var llmRaised, cvRaised;
      if llmFirst {
        llmRaised := RunLlm(state, calls, t, x, if state.value.cvDone then Skipped else Calling);
        cvRaised := RunCv(state, calls, t, x, machine.attempts[t].pc.llm);
      } else {
        cvRaised := RunCv(state, calls, t, x, if state.value.llmDone then Skipped else Calling);
        llmRaised := RunLlm(state, calls, t, x, machine.attempts[t].pc.cv);
      }
      raised := llmRaised || cvRaised;
      GatherStages(t);
    }

    method FinalizeAggregation(state: WorkingDocument, now: Time, write: Call, ghost t: nat, ghost x: Attempt)
      returns (raised: bool)
      requires Valid() && now == machine.clock
      requires x.pc == Finalize(state.value) && IsAt(t, x)
      modifies `docs, `machine, state
      ensures Valid()
      ensures raised <==> !old(state.value).IsFullyEnriched() || write.Raises?
      ensures state.value == if old(state.value).IsFullyEnriched() then old(state.value).(enrichedAt := Some(now))
        else old(state.value)
      ensures docs == Put(old(docs), old(state.value).IsFullyEnriched() && Applied(write), state.value)
      ensures IsAt(t, x.(pc := if raised then Raised else Publish(state.value)))
    {
      if !state.value.IsFullyEnriched() {
        Take(WriteFinal(t));
        return true;
      }
      state.value := state.value.(enrichedAt := Some(now));
      if Applied(write) {
        docs := docs[state.value.raw.externalId := state.value];
      }
      Take(if write.Raises? then Raise(t, write.applied) else WriteFinal(t));
      return write.Raises?;
    }

    method PublishEnriched(document: EnrichedListing, call: Call, listing: RawListing, eventId: EventId, ghost t: nat)
      requires Valid() && IsAt(t, Attempt(listing, eventId, Publish(document)))
      modifies `published, `machine
      ensures Valid()
      ensures published == if Applied(call) then old(published) + [Publication(eventId, listing, document)]
        else old(published)
    {
      if Applied(call) {
        published := published + [Publication(eventId, listing, document)];
      }
      Take(if call.Raises? then Raise(t, call.applied) else DoPublish(t));
    }

    /** An attempt begins and reads the stored document. */
    ghost method BeginAndRead(t: nat, listing: RawListing, eventId: EventId, raises: bool)
      requires Valid() && t !in machine.attempts
      modifies this`machine
      ensures Valid() && machine.clock == old(machine.clock)
      ensures var existing := Lookup(docs, listing.externalId);
        !raises ==> IsAt(t, Attempt(listing, eventId,
          if TakesFastPath(existing, listing) then Publish(existing.value) else Prepare(existing)))
    {
      Take(Begin(t, listing, eventId));
      Take(if raises then Raise(t, false) else Read(t));
    }

    /** The end of an attempt whose stages have not raised. */
    method FinalizeAndPublish(listing: RawListing, state: WorkingDocument, eventId: EventId, calls: Calls, now: Time,
                              ghost t: nat)
      returns (result: Option<EnrichedListing>)
      requires Valid() && IsAt(t, Attempt(listing, eventId, Finalize(state.value))) && now == machine.clock
      modifies `docs, `published, `machine, state
      ensures Valid()
      ensures var ended := FinishOutcome(old(docs), old(state.value), listing, eventId, calls, now);
        result == ended.result && docs == ended.docs && published == old(published) + ended.published
    {
      var raised := FinalizeAggregation(state, now, calls.finish, t, Attempt(listing, eventId, Finalize(state.value)));
      if raised {
        return None;
      }
      PublishEnriched(state.value, calls.publish, listing, eventId, t);
      return if calls.publish.Returns? then Some(state.value) else None;
    }

    /** The rest of an attempt that has something to compute. */
    method EnrichPending(listing: RawListing, existing: Option<EnrichedListing>, eventId: EventId, calls: Calls,
                         llmFirst: bool, now: Time, ghost t: nat)
      returns (result: Option<EnrichedListing>)
      requires Valid() && IsAt(t, Attempt(listing, eventId, Prepare(existing))) && now == machine.clock
      modifies `docs, `published, `machine
      ensures Valid()
      ensures var ended := PendingOutcome(old(docs), existing, listing, eventId, calls, llmFirst, now);
        result == ended.result && docs == ended.docs && published == old(published) + ended.published
    {
      var state := PrepareState(listing, existing, calls.prepare, t, eventId);
      if calls.prepare.Raises? {
        return None;
      }
      var raised := RunStages(state, calls, llmFirst, t, Attempt(listing, eventId, Fetch));
      if raised {
        return None;
      }
      result := FinalizeAndPublish(listing, state, eventId, calls, now, t);
    }

    /** One attempt with nothing in between. */
    method Enrich(listing: RawListing, eventId: EventId, calls: Calls, llmFirst: bool, now: Time, ghost t: nat)
      returns (result: Option<EnrichedListing>)
      requires Valid() && t !in machine.attempts && now == machine.clock
      modifies `docs, `published, `machine
      ensures Valid()
      ensures var ended := EnrichOutcome(old(docs), listing, eventId, calls, llmFirst, now);
        result == ended.result && docs == ended.docs && published == old(published) + ended.published
    {
      BeginAndRead(t, listing, eventId, calls.readRaises);
      if calls.readRaises {
        return None;
      }
      var existing := if listing.externalId in docs then Some(docs[listing.externalId]) else None;
      if existing.Some? && existing.value.IsFullyEnriched()
        && EnrichmentFingerprint(existing.value.raw) == EnrichmentFingerprint(listing)
      {
        PublishEnriched(existing.value, calls.publish, listing, eventId, t);
        return if calls.publish.Returns? then existing else None;
      }
      result := EnrichPending(listing, existing, eventId, calls, llmFirst, now, t);
    }
  }

  /** Whatever sequence of ingests and attempts an orchestrator has gone through, its store and
      what it published agree with the inputs. */
  lemma StoreAgreesWithInputs(o: EnrichmentOrchestrator)
    requires o.Valid() && EnrichmentCache.Init(o.start)
    ensures forall id :: id in o.docs ==> EnrichmentCache.Agrees(o.machine, o.docs[id])
    ensures forall p :: p in o.published ==>
      p.document.IsFullyEnriched() && SameInputs(p.document, p.trigger) && EnrichmentCache.Agrees(o.machine, p.document)
  {
    var past :| RunsTo(o.start, past, o.machine);
    EnrichmentCache.StoredResultsAgree(o.start, past);
    forall p | p in o.published
      ensures p.document.IsFullyEnriched() && SameInputs(p.document, p.trigger)
        && EnrichmentCache.Agrees(o.machine, p.document)
    {
      EnrichmentCache.PublishedMatchesTrigger(o.start, past, p);
    }
  }
}

/** The enrichment orchestrator: any number of attempts over the shared listing store, interleaved
    at every await, with the two stages of an attempt running concurrently. Stage results are
    opaque; every stage call and every result is recorded. */
module Enrichment {
  import opened Types

  type Documents = map<ListingId, EnrichedListing>

  /** Skipped: already done when the attempt started.  Stored: done in this attempt. */
  datatype Stage<T> = Idle | Calling | Returned(result: T) | Skipped | Stored | StageFailed

  /** Where an attempt is; `state` is the working document both stages share. */
  datatype Pc =
    | Fetch
    | Prepare(existing: Option<EnrichedListing>)
    | Stages(state: EnrichedListing, llm: Stage<ListingOptions>, cv: Stage<seq<DefectInfo>>)
    | Finalize(state: EnrichedListing)
    | Publish(document: EnrichedListing)
    | Published(document: EnrichedListing)
    | Raised

  datatype Attempt = Attempt(listing: RawListing, eventId: EventId, pc: Pc) {
    /** Still going to touch the store. */
    predicate Running() { !pc.Raised? && !pc.Published? }
  }

  datatype Publication = Publication(eventId: EventId, trigger: RawListing, document: EnrichedListing)

  /** `llmResults` and `cvResults` are the stage results with the listing each was computed on. */
  datatype State = State(
    docs: Documents, attempts: map<nat, Attempt>,
    llmResults: set<(RawListing, ListingOptions)>, cvResults: set<(RawListing, seq<DefectInfo>)>,
    publications: set<Publication>, clock: Time)

  datatype Action =
    | EnqueueRaw(listing: RawListing)
    | Begin(t: nat, listing: RawListing, eventId: EventId)
    | Read(t: nat)
    | WritePrepared(t: nat)
    | LlmCall(t: nat)
    | LlmReturn(t: nat, options: ListingOptions)
    | LlmRaise(t: nat)
    | LlmStore(t: nat)
    | LlmStoreRaise(t: nat, reached: bool)
    | CvCall(t: nat)
    | CvReturn(t: nat, defects: seq<DefectInfo>)
    | CvRaise(t: nat)
    | CvStore(t: nat)
    | CvStoreRaise(t: nat, reached: bool)
    | Gather(t: nat)
    | WriteFinal(t: nat)
    | DoPublish(t: nat)
    | Raise(t: nat, reached: bool)
    | Drop(t: nat)
    | Tick(dt: nat)

  function Lookup(docs: Documents, id: ListingId): Option<EnrichedListing> {
    if id in docs then Some(docs[id]) else None
  }

  predicate SameInputs(document: EnrichedListing, listing: RawListing) {
    EnrichmentFingerprint(document.raw) == EnrichmentFingerprint(listing)
  }

  /** Nothing is left to compute for this listing. */
  predicate TakesFastPath(existing: Option<EnrichedListing>, listing: RawListing) {
    existing.Some? && existing.value.IsFullyEnriched() && SameInputs(existing.value, listing)
  }

  /** The working document: fresh, with the progress of an existing one on the same inputs. */
  function Prepared(listing: RawListing, existing: Option<EnrichedListing>): EnrichedListing {
    var blank := FreshDocument(listing);
    if existing.Some? && SameInputs(existing.value, listing) then
      blank.(llmDone := existing.value.llmDone, cvDone := existing.value.cvDone,
             options := existing.value.options, defects := existing.value.defects)
    else blank
  }

  function Upsert(docs: Documents, document: EnrichedListing): Documents {
    docs[document.raw.externalId := document]
  }

  predicate InStages(s: State, t: nat) { t in s.attempts && s.attempts[t].pc.Stages? }

  predicate Enabled(s: State, a: Action) {
    match a
    case EnqueueRaw(_) => true
    case Begin(t, _, _) => t !in s.attempts
    case Read(t) => t in s.attempts && s.attempts[t].pc.Fetch?
    case WritePrepared(t) => t in s.attempts && s.attempts[t].pc.Prepare?
    case LlmCall(t) => InStages(s, t) && s.attempts[t].pc.llm.Idle?
    case LlmReturn(t, _) => InStages(s, t) && s.attempts[t].pc.llm.Calling?
    case LlmRaise(t) => InStages(s, t) && s.attempts[t].pc.llm.Calling?
    case LlmStore(t) => InStages(s, t) && s.attempts[t].pc.llm.Returned?
    case LlmStoreRaise(t, _) => InStages(s, t) && s.attempts[t].pc.llm.Returned?
    case CvCall(t) => InStages(s, t) && s.attempts[t].pc.cv.Idle?
    case CvReturn(t, _) => InStages(s, t) && s.attempts[t].pc.cv.Calling?
    case CvRaise(t) => InStages(s, t) && s.attempts[t].pc.cv.Calling?
    case CvStore(t) => InStages(s, t) && s.attempts[t].pc.cv.Returned?
    case CvStoreRaise(t, _) => InStages(s, t) && s.attempts[t].pc.cv.Returned?
    case Gather(t) => InStages(s, t) && Over(s.attempts[t].pc.llm) && Over(s.attempts[t].pc.cv)
    case WriteFinal(t) => t in s.attempts && s.attempts[t].pc.Finalize?
    case DoPublish(t) => t in s.attempts && s.attempts[t].pc.Publish?
    case Raise(t, _) => t in s.attempts && s.attempts[t].Running() && !s.attempts[t].pc.Stages?
    case Drop(t) => t in s.attempts
    case Tick(_) => true
  }

  /** The attempt whose step this is. */
  function Actor(a: Action): Option<nat> {
    match a
    case EnqueueRaw(_) => None
    case Tick(_) => None
    case Begin(t, _, _) => Some(t)
    case Read(t) => Some(t)
    case WritePrepared(t) => Some(t)
    case LlmCall(t) => Some(t)
    case LlmReturn(t, _) => Some(t)
    case LlmRaise(t) => Some(t)
    case LlmStore(t) => Some(t)
    case LlmStoreRaise(t, _) => Some(t)
    case CvCall(t) => Some(t)
    case CvReturn(t, _) => Some(t)
    case CvRaise(t) => Some(t)
    case CvStore(t) => Some(t)
    case CvStoreRaise(t, _) => Some(t)
    case Gather(t) => Some(t)
    case WriteFinal(t) => Some(t)
    case DoPublish(t) => Some(t)
    case Raise(t, _) => Some(t)
    case Drop(t) => Some(t)
  }

  predicate Over<T>(stage: Stage<T>) { stage.Skipped? || stage.Stored? || stage.StageFailed? }

  function Goto(s: State, t: nat, pc: Pc): State
    requires t in s.attempts
  {
    s.(attempts := s.attempts[t := s.attempts[t].(pc := pc)])
  }

  /** The document an attempt writes next, if it is about to write one. */
  function Pending(s: State, x: Attempt): Option<EnrichedListing> {
    match x.pc
    case Prepare(existing) => Some(Prepared(x.listing, existing))
    case Finalize(state) => if state.IsFullyEnriched() then Some(state.(enrichedAt := Some(s.clock))) else None
    case _ => None
  }

  /** The lock makes setting a stage's fields and writing the document one step with respect to
      the other stage. A write that raises may or may not have reached the store; the fields of
      the working document are set either way. */
  function Apply(s: State, a: Action): State
    requires Enabled(s, a)
  {
    match a
    case EnqueueRaw(listing) => s.(docs := Upsert(s.docs, FreshDocument(listing)))
    case Begin(t, listing, eventId) => s.(attempts := s.attempts[t := Attempt(listing, eventId, Fetch)])
    case Read(t) =>
      var x := s.attempts[t];
      var existing := Lookup(s.docs, x.listing.externalId);
      Goto(s, t, if TakesFastPath(existing, x.listing) then Publish(existing.value) else Prepare(existing))
    case WritePrepared(t) =>
      var x := s.attempts[t];
      var state := Prepared(x.listing, x.pc.existing);
      Goto(s.(docs := Upsert(s.docs, state)), t,
           Stages(state, if state.llmDone then Skipped else Idle, if state.cvDone then Skipped else Idle))
    case LlmCall(t) => Goto(s, t, s.attempts[t].pc.(llm := Calling))
    case LlmReturn(t, options) =>
      Goto(s.(llmResults := s.llmResults + {(s.attempts[t].listing, options)}), t,
        s.attempts[t].pc.(llm := Returned(options)))
    case LlmRaise(t) => Goto(s, t, s.attempts[t].pc.(llm := StageFailed))
    case LlmStore(t) =>
      var pc := s.attempts[t].pc;
      var state := pc.state.(options := pc.llm.result, llmDone := true);
      Goto(s.(docs := Upsert(s.docs, state)), t, pc.(state := state, llm := Stored))
    case LlmStoreRaise(t, reached) =>
      var pc := s.attempts[t].pc;
      var state := pc.state.(options := pc.llm.result, llmDone := true);
      Goto(if reached then s.(docs := Upsert(s.docs, state)) else s, t, pc.(state := state, llm := StageFailed))
    case CvCall(t) => Goto(s, t, s.attempts[t].pc.(cv := Calling))
    case CvReturn(t, defects) =>
      Goto(s.(cvResults := s.cvResults + {(s.attempts[t].listing, defects)}), t,
        s.attempts[t].pc.(cv := Returned(defects)))
    case CvRaise(t) => Goto(s, t, s.attempts[t].pc.(cv := StageFailed))
    case CvStore(t) =>
      var pc := s.attempts[t].pc;
      var state := pc.state.(defects := pc.cv.result, cvDone := true);
      Goto(s.(docs := Upsert(s.docs, state)), t, pc.(state := state, cv := Stored))
    case CvStoreRaise(t, reached) =>
      var pc := s.attempts[t].pc;
      var state := pc.state.(defects := pc.cv.result, cvDone := true);
      Goto(if reached then s.(docs := Upsert(s.docs, state)) else s, t, pc.(state := state, cv := StageFailed))
    case Gather(t) =>
      var pc := s.attempts[t].pc;
      Goto(s, t, if pc.llm.StageFailed? || pc.cv.StageFailed? then Raised else Finalize(pc.state))
    case WriteFinal(t) =>
      var state := s.attempts[t].pc.state;
      if !state.IsFullyEnriched() then Goto(s, t, Raised)
      else
        var final := state.(enrichedAt := Some(s.clock));
        Goto(s.(docs := Upsert(s.docs, final)), t, Publish(final))
    case DoPublish(t) =>
      var x := s.attempts[t];
      Goto(s.(publications := s.publications + {Publication(x.eventId, x.listing, x.pc.document)}), t,
           Published(x.pc.document))
    case Raise(t, reached) =>
      var x := s.attempts[t];
      var next := Pending(s, x);
      Goto(if !reached then s
           else if x.pc.Publish? then
             s.(publications := s.publications + {Publication(x.eventId, x.listing, x.pc.document)})
           else if next.Some? then s.(docs := Upsert(s.docs, next.value)) else s, t, Raised)
    case Drop(t) => s.(attempts := s.attempts - {t})
    case Tick(dt) => s.(clock := s.clock + dt)
  }

  ghost predicate Valid(s: State, acts: seq<Action>)
    decreases |acts|
  {
    acts != [] ==> Enabled(s, acts[0]) && Valid(Apply(s, acts[0]), acts[1..])
  }

  ghost function Exec(s: State, acts: seq<Action>): State
    requires Valid(s, acts)
    decreases |acts|
  {
    if acts == [] then s else Exec(Apply(s, acts[0]), acts[1..])
  }

  /** A step changes its own attempt only. */
  lemma Untouched(s: State, a: Action, t: nat)
    requires Enabled(s, a) && Actor(a) != Some(t)
    ensures t in Apply(s, a).attempts <==> t in s.attempts
    ensures t in s.attempts ==> Apply(s, a).attempts[t] == s.attempts[t]
  {
  }

  /** An attempt that has ended does nothing more; it can only be forgotten. */
  lemma EndedIsInert(s: State, a: Action, t: nat)
    requires Enabled(s, a) && Actor(a) == Some(t) && t in s.attempts && !s.attempts[t].Running()
    ensures a == Drop(t)
  {
  }

  /** An attempt keeps its event and its listing for as long as it is known. */
  lemma IdentityLasts(s: State, a: Action, t: nat)
    requires Enabled(s, a) && t in s.attempts && a != Drop(t)
    ensures t in Apply(s, a).attempts
    ensures Apply(s, a).attempts[t].eventId == s.attempts[t].eventId
      && Apply(s, a).attempts[t].listing == s.attempts[t].listing
  {
    if Actor(a) != Some(t) {
      Untouched(s, a, t);
    }
  }

  /** What a step can publish. */
  function NewlyPublished(s: State, a: Action): set<Publication>
    requires Enabled(s, a)
  {
    if a.DoPublish? || (a.Raise? && a.reached && s.attempts[a.t].pc.Publish?) then
      {Publication(s.attempts[a.t].eventId, s.attempts[a.t].listing, s.attempts[a.t].pc.document)}
    else {}
  }

  lemma PublicationsGrow(s: State, a: Action)
    requires Enabled(s, a)
    ensures Apply(s, a).publications == s.publications + NewlyPublished(s, a)
  {
  }
}

/** Value types shared by the services: options, instants, listings and events.
    Times are integers; one unit is one millisecond, the resolution of a stored date. */
module Types {
  datatype Option<+T> = None | Some(value: T)

  /** A call that raises may have been applied all the same. */
  datatype Call = Returns | Raises(applied: bool)

  type Time = int
  type EventId = string
  type ListingId = string

  /** A processing lease older than this may be taken over by another worker. */
  const CLAIM_STALE_AFTER: Time := 5 * 60 * 1000

  lemma LeaseIsFiveMinutes()
    ensures CLAIM_STALE_AFTER == 300_000
  {
  }

  /** Stands in for the listing of a body that does not parse. */
  const UNKNOWN_EXTERNAL_ID := "unknown"

  datatype ListingOptions = ListingOptions(
    packages: seq<string>, features: seq<string>, tags: seq<string>,
    ownerCount: Option<int>, notes: Option<string>)

  datatype DefectInfo = DefectInfo(
    kind: string, confidence: real, imageUrl: Option<string>, bbox: Option<seq<real>>)

  datatype RawListing = RawListing(
    externalId: ListingId, source: string, url: Option<string>,
    title: Option<string>, description: Option<string>,
    make: Option<string>, model: Option<string>, year: Option<int>,
    mileageKm: Option<int>, askingPrice: Option<real>, currency: string,
    imageUrls: seq<string>, rawPayload: string, receivedAt: Time)

  const NO_OPTIONS := ListingOptions([], [], [], None, None)

  /** The stored document: the raw listing it was built from, plus the enrichment outputs. */
  datatype EnrichedListing = EnrichedListing(
    raw: RawListing, options: ListingOptions, defects: seq<DefectInfo>,
    enrichedAt: Option<Time>, llmDone: bool, cvDone: bool)
  {
    predicate IsFullyEnriched() { llmDone && cvDone }
  }

  function FreshDocument(listing: RawListing): EnrichedListing {
    EnrichedListing(listing, NO_OPTIONS, [], None, false, false)
  }

  /** The fields whose change triggers re-enrichment. */
  datatype Fingerprint = Fingerprint(
    title: Option<string>, description: Option<string>, make: Option<string>, model: Option<string>,
    year: Option<int>, askingPrice: Option<real>, imageUrls: seq<string>)

  function EnrichmentFingerprint(listing: RawListing): Fingerprint {
    Fingerprint(listing.title, listing.description, listing.make, listing.model,
                listing.year, listing.askingPrice, listing.imageUrls)
  }

  /** Two listings have the same fingerprint exactly when these seven fields agree one by one; url,
      mileage, currency, payload and the time of receipt do not matter. */
  lemma SameFingerprintIff(a: RawListing, b: RawListing)
    ensures EnrichmentFingerprint(a) == EnrichmentFingerprint(b) <==>
      && a.title == b.title && a.description == b.description && a.make == b.make && a.model == b.model
      && a.year == b.year && a.askingPrice == b.askingPrice && a.imageUrls == b.imageUrls
  {
  }

  /** A consumed body: bytes that do not parse, or a parsed event. */
  datatype Body =
    | Malformed(raw: string)
    | Event(eventId: EventId, listing: RawListing, requestId: Option<string>, retryCount: int)
}

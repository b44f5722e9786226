/** The observation normaliser: one raw feed record to a `Market`, or nothing. */
module Normalizer {
  import opened Wrappers
  import opened Model

  /** A numeric field of a raw record as `float()` sees it: absent (the default applies),
      a value `float()` accepts, or a value on which `float()` raises. */
  datatype RawNumber = Absent | Number(value: real) | NotANumber

  /** An entry of the record's `events` list: an object (its `slug` key may be missing)
      or something without `.get`, on which reading the slug raises. */
  datatype RawEvent = EventObject(slug: Option<string>) | NotAnObject

  /** One record of the feed. `id` is the text `str()` gives for the `id` key, or none
      when the key is missing; `events` is the list (empty when missing, null or empty). */
  datatype RawRecord = RawRecord(
    id: Option<string>,
    question: Option<string>,
    volumeNum: RawNumber,
    bestBid: RawNumber,
    bestAsk: RawNumber,
    spread: RawNumber,
    events: seq<RawEvent>,
    groupItemTitle: Option<string>)

  /** `float(raw.get(key, default))`: none when the coercion raises. */
  function Coerce(f: RawNumber, default: real): Option<real> {
    match f
    case Absent => Some(default)
    case Number(x) => Some(x)
    case NotANumber => None
  }

  /** The slug of the first event; the outer none means reading it raised. */
  function FirstSlug(events: seq<RawEvent>): Option<Option<string>> {
    if |events| == 0 then Some(None)
    else match events[0]
      case EventObject(slug) => Some(slug)
      case NotAnObject => None
  }

  /** The spread field as the parser reads it, 0 when absent. */
  function ReportedSpread(raw: RawRecord): real
    requires !raw.spread.NotANumber?
  {
    if raw.spread.Number? then raw.spread.value else 0.0
  }

  function Max(a: real, b: real): real {
    if a >= b then a else b
  }

  /** `parse`: any failure (missing id, failed coercion, unreadable first event) yields
      none; otherwise the bid defaults to 0, the ask to 1, the volume to 0, the question to
      "No title", and the spread is the larger of the reported spread and ask minus bid. */
  function Parse(raw: RawRecord): (r: Option<Market>)
    ensures r.Some? <==>
      && raw.id.Some?
      && !raw.bestBid.NotANumber? && !raw.bestAsk.NotANumber?
      && !raw.spread.NotANumber? && !raw.volumeNum.NotANumber?
      && (|raw.events| > 0 ==> raw.events[0].EventObject?)
    ensures r.Some? ==> r.value.id == raw.id.value
    ensures r.Some? ==> r.value.spread >= r.value.bestAsk - r.value.bestBid
    ensures r.Some? ==> r.value.spread >= ReportedSpread(raw)
    ensures r.Some? ==> r.value.spread == r.value.bestAsk - r.value.bestBid || r.value.spread == ReportedSpread(raw)
    ensures r.Some? ==> r.value.bestBid == (if raw.bestBid.Number? then raw.bestBid.value else 0.0)
    ensures r.Some? ==> r.value.bestAsk == (if raw.bestAsk.Number? then raw.bestAsk.value else 1.0)
    ensures r.Some? ==> r.value.volume == (if raw.volumeNum.Number? then raw.volumeNum.value else 0.0)
    ensures r.Some? ==> r.value.question == raw.question.GetOr("No title")
    ensures r.Some? ==> r.value.eventSlug == (if |raw.events| == 0 then None else raw.events[0].slug)
    ensures r.Some? ==> r.value.groupItemTitle == raw.groupItemTitle
  {
    var bid := Coerce(raw.bestBid, 0.0);
    var ask := Coerce(raw.bestAsk, 1.0);
    var reported := Coerce(raw.spread, 0.0);
    var slug := FirstSlug(raw.events);
    var volume := Coerce(raw.volumeNum, 0.0);
    if bid.None? || ask.None? || reported.None? || slug.None? || raw.id.None? || volume.None? then None
    else
      Some(Market(
        id := raw.id.value,
        question := raw.question.GetOr("No title"),
        volume := volume.value,
        bestBid := bid.value,
        bestAsk := ask.value,
        spread := Max(reported.value, ask.value - bid.value),
        eventSlug := slug.value,
        groupItemTitle := raw.groupItemTitle))
  }

  /** A record with nothing but an id: no quotes gives the widest spread, 1. */
  lemma MissingQuotesGiveWidestSpread(id: string)
    ensures var r := Parse(RawRecord(Some(id), None, Absent, Absent, Absent, Absent, [], None));
      r.Some? && r.value.spread == 1.0 && r.value.eventSlug.None? && r.value.question == "No title"
  {
  }
}

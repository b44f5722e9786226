/** The bot's configuration and the two records it passes around: a normalised market
    observation and the per-market snapshot kept in the store. */
module Model {
  import opened Wrappers

  /** The thresholds and constants of `Config` that the core reads. */
  datatype Config = Config(
    minVolume: real,
    minSpread: real,
    maxSpread: real,
    minVolumeDelta: real,
    minPriceMove: real,
    persistenceCycles: int,
    maxAlertsPerCycle: int,
    referralCode: string)

  /** The dataclass defaults. */
  const Defaults := Config(100000.0, 0.05, 0.5, 0.0, 0.0, 1, 6, "selenka")

  /** One normalised observation of a market in the current cycle. */
  datatype Market = Market(
    id: string,
    question: string,
    volume: real,
    bestBid: real,
    bestAsk: real,
    spread: real,
    eventSlug: Option<string>,
    groupItemTitle: Option<string>)

  /** The store's record for one market id. The counter is optional because a record
      loaded from the state file may lack the `persistence` key. */
  datatype Snapshot = Snapshot(
    volume: real,
    bestBid: real,
    bestAsk: real,
    lastSeen: real,
    persistence: Option<int>)
}

/** The live detector: a pure gate over a new observation and the prior snapshot. */
module Detector {
  import opened Wrappers
  import opened Model

  function Abs(x: real): real {
    if x < 0.0 then -x else x
  }

  /** The L1 distance between the new and the prior quotes. */
  function PriceMove(m: Market, prev: Snapshot): (d: real)
    ensures d >= 0.0
    ensures d == 0.0 <==> m.bestBid == prev.bestBid && m.bestAsk == prev.bestAsk
  {
    Abs(m.bestBid - prev.bestBid) + Abs(m.bestAsk - prev.bestAsk)
  }

  /** All five gates of `is_live` hold (the counter defaults to 1 when missing). */
  predicate PassesGates(cfg: Config, m: Market, prev: Snapshot) {
    && m.volume - prev.volume >= cfg.minVolumeDelta
    && PriceMove(m, prev) >= cfg.minPriceMove
    && prev.persistence.GetOr(1) >= cfg.persistenceCycles
    && m.volume >= cfg.minVolume
    && cfg.minSpread <= m.spread <= cfg.maxSpread
  }

  /** `is_live`: no score for a first sighting; otherwise a score exactly when every gate
      passes, and then the score is volume delta times price move times spread. */
  function IsLive(cfg: Config, m: Market, prev: Option<Snapshot>): (r: Option<real>)
    ensures prev.None? ==> r.None?
    ensures r.Some? <==> prev.Some? && PassesGates(cfg, m, prev.value)
    ensures r.Some? ==> r.value == (m.volume - prev.value.volume) * PriceMove(m, prev.value) * m.spread
  {
    if prev.None? then None
    else
      var p := prev.value;
      var volumeDelta := m.volume - p.volume;
      var priceMove := PriceMove(m, p);
      var persistence := p.persistence.GetOr(1);
      if volumeDelta < cfg.minVolumeDelta then None
      else if priceMove < cfg.minPriceMove then None
      else if persistence < cfg.persistenceCycles then None
      else if m.volume < cfg.minVolume then None
      else if !(cfg.minSpread <= m.spread <= cfg.maxSpread) then None
      else Some(volumeDelta * priceMove * m.spread)
  }

  /** Each gate on its own vetoes: any one value on the wrong side of its threshold gives no score. */
  lemma EachGateVetoes(cfg: Config, m: Market, p: Snapshot)
    requires || m.volume - p.volume < cfg.minVolumeDelta
             || PriceMove(m, p) < cfg.minPriceMove
             || p.persistence.GetOr(1) < cfg.persistenceCycles
             || m.volume < cfg.minVolume
             || m.spread < cfg.minSpread
             || m.spread > cfg.maxSpread
    ensures IsLive(cfg, m, Some(p)).None?
  {
  }

  /** With non-negative volume-delta and spread floors, every score is non-negative, and it
      is zero exactly when the volume did not grow, the quotes did not move or the spread is 0. */
  lemma ScoreSign(cfg: Config, m: Market, p: Snapshot)
    requires cfg.minVolumeDelta >= 0.0 && cfg.minSpread >= 0.0
    requires IsLive(cfg, m, Some(p)).Some?
    ensures IsLive(cfg, m, Some(p)).value >= 0.0
    ensures IsLive(cfg, m, Some(p)).value == 0.0 <==>
      m.volume == p.volume || PriceMove(m, p) == 0.0 || m.spread == 0.0
  {
    var d, mv, s := m.volume - p.volume, PriceMove(m, p), m.spread;
    assert d >= 0.0 && mv >= 0.0 && s >= 0.0;
    assert d * mv >= 0.0;
    assert IsLive(cfg, m, Some(p)).value == d * mv * s;
    if d != 0.0 && mv != 0.0 && s != 0.0 {
      assert d * mv > 0.0;
      assert d * mv * s > 0.0;
    } else if d == 0.0 {
      assert d * mv == 0.0;
    } else if mv == 0.0 {
      assert d * mv == 0.0;
    } else {
      assert d * mv * s == 0.0;
    }
  }

  /** Prior {100000, .40, .45, p=2}, new {150000, .30, .60, spread .30}: score 3750 under the defaults. */
  lemma ExampleScores()
    ensures IsLive(Defaults, Market("m", "q", 150000.0, 0.30, 0.60, 0.30, None, None),
                   Some(Snapshot(100000.0, 0.40, 0.45, 0.0, Some(2)))) == Some(3750.0)
  {
  }

  /** The same with ask .96: the spread .66 is above the band and there is no score. */
  lemma ExampleSpreadTooWide()
    ensures IsLive(Defaults, Market("m", "q", 150000.0, 0.30, 0.96, 0.66, None, None),
                   Some(Snapshot(100000.0, 0.40, 0.45, 0.0, Some(2)))).None?
  {
  }
}

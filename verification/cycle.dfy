/** One polling cycle (`run_once` without the fetch, the save and the send): every record is
    parsed, scored against the store as it stands, merged into the store, and the live
    entries are ranked and cut to the alert limit. */
module Cycle {
  import opened Wrappers
  import opened Model
  import opened Store
  import opened Normalizer
  import opened Detector
  import opened Ranking
  import opened Text

  /** The state of a cycle after some records: the store and the `live_markets` list. */
  datatype Pass = Pass(store: StoreMap, live: seq<Scored>)

  /** What one score contributes to `live_markets`: `if score:` drops none and zero. */
  function Entry(score: Option<real>, m: Market): (e: seq<Scored>)
    ensures |e| <= 1
    ensures e != [] <==> score.Some? && score.value != 0.0
    ensures e != [] ==> e[0] == Scored(score.value, m)
  {
    if score.Some? && score.value != 0.0 then [Scored(score.value, m)] else []
  }

  /** One iteration of the loop: an unparseable record changes nothing; a parsed market is
      scored against the store before it is merged into the store. */
  function Step(cfg: Config, p: Pass, raw: RawRecord, now: real): Pass {
    match Parse(raw)
    case None => p
    case Some(m) =>
      var score := IsLive(cfg, m, Lookup(p.store, m.id));
      Pass(Merge(p.store, m, now), p.live + Entry(score, m))
  }

  /** The records processed in order, starting from store `data` and an empty list. */
  function Process(cfg: Config, data: StoreMap, raws: seq<RawRecord>, now: real): Pass
    decreases |raws|
  {
    if raws == [] then Pass(data, [])
    else Step(cfg, Process(cfg, data, raws[..|raws| - 1], now), raws[|raws| - 1], now)
  }

  lemma ProcessOneMore(cfg: Config, data: StoreMap, raws: seq<RawRecord>, i: nat, now: real)
    requires i < |raws|
    ensures Process(cfg, data, raws[..i + 1], now) == Step(cfg, Process(cfg, data, raws[..i], now), raws[i], now)
  {
    assert raws[..i + 1][..i] == raws[..i];
  }

  /** The record parses into a market with this id. */
  predicate ParsesTo(raw: RawRecord, id: string) {
    Parse(raw).Some? && Parse(raw).value.id == id
  }

  /** How many records of the batch parse into a market with this id. */
  function Occurrences(raws: seq<RawRecord>, id: string): nat
    decreases |raws|
  {
    if raws == [] then 0
    else Occurrences(raws[..|raws| - 1], id) + (if ParsesTo(raws[|raws| - 1], id) then 1 else 0)
  }

  /** Every parsed occurrence updates the store exactly once: after the batch, an id seen
      `n > 0` times has counter "prior count + n"; an id not seen keeps its entry (or its absence). */
  lemma {:induction false} ProcessCountsOccurrences(cfg: Config, data: StoreMap, raws: seq<RawRecord>, now: real, id: string)
    ensures var store := Process(cfg, data, raws, now).store;
      && (id in store <==> id in data || Occurrences(raws, id) > 0)
      && (Occurrences(raws, id) == 0 && id in data ==> store[id] == data[id])
      && (Occurrences(raws, id) > 0 ==>
            store[id].persistence == Some(PriorCount(data, id) + Occurrences(raws, id)))
    decreases |raws|
  {
    if raws != [] {
      var init, raw := raws[..|raws| - 1], raws[|raws| - 1];
      ProcessCountsOccurrences(cfg, data, init, now, id);
      var p := Process(cfg, data, init, now);
      if Parse(raw).Some? {
        MergeIncrements(p.store, Parse(raw).value, now);
      }
    }
  }

  /** An unparseable record is skipped without affecting the records around it. */
  lemma {:induction false} UnparseableIsSkipped(cfg: Config, data: StoreMap, a: seq<RawRecord>, bad: RawRecord, b: seq<RawRecord>, now: real)
    requires Parse(bad).None?
    ensures Process(cfg, data, a + [bad] + b, now) == Process(cfg, data, a + b, now)
    decreases |b|
  {
    if b == [] {
      assert (a + [bad] + b)[..|a + [bad] + b| - 1] == a;
      assert a + b == a;
    } else {
      var b' := b[..|b| - 1];
      UnparseableIsSkipped(cfg, data, a, bad, b', now);
      assert (a + [bad] + b)[..|a + [bad] + b| - 1] == a + [bad] + b';
      assert (a + b)[..|a + b| - 1] == a + b';
    }
  }

  /** Scores only go to markets seen before: an entry of the live list belongs to an id that
      was already in the store or that occurs at least twice in the batch (and the first of
      those occurrences never scores, by `FirstSightingDoesNotScore`). */
  lemma {:induction false} OnlyRepeatSightingsScore(cfg: Config, data: StoreMap, raws: seq<RawRecord>, now: real)
    ensures forall e :: e in Process(cfg, data, raws, now).live ==>
      e.market.id in data || Occurrences(raws, e.market.id) >= 2
    decreases |raws|
  {
    if raws != [] {
      var init, raw := raws[..|raws| - 1], raws[|raws| - 1];
      OnlyRepeatSightingsScore(cfg, data, init, now);
      var p := Process(cfg, data, init, now);
      forall e | e in Process(cfg, data, raws, now).live
        ensures e.market.id in data || Occurrences(raws, e.market.id) >= 2
      {
        if e !in p.live {
          var m := Parse(raw).value;
          assert e in Entry(IsLive(cfg, m, Lookup(p.store, m.id)), m);
          ProcessCountsOccurrences(cfg, data, init, now, m.id);
        }
      }
    }
  }

  /** The first occurrence of an id that is not in the store adds nothing to the live list. */
  lemma FirstSightingDoesNotScore(cfg: Config, data: StoreMap, raws: seq<RawRecord>, i: nat, now: real)
    requires i < |raws| && Parse(raws[i]).Some?
    requires Parse(raws[i]).value.id !in data && Occurrences(raws[..i], Parse(raws[i]).value.id) == 0
    ensures Process(cfg, data, raws[..i + 1], now).live == Process(cfg, data, raws[..i], now).live
  {
    ProcessOneMore(cfg, data, raws, i, now);
    ProcessCountsOccurrences(cfg, data, raws[..i], now, Parse(raws[i]).value.id);
  }

  /** Every live entry has a non-zero score and a market parsed from one of the records. */
  lemma {:induction false} LiveEntriesAreParsedNonZero(cfg: Config, data: StoreMap, raws: seq<RawRecord>, now: real)
    ensures forall e :: e in Process(cfg, data, raws, now).live ==>
      e.score != 0.0 && exists r :: r in raws && Parse(r) == Some(e.market)
    decreases |raws|
  {
    if raws != [] {
      var init, raw := raws[..|raws| - 1], raws[|raws| - 1];
      LiveEntriesAreParsedNonZero(cfg, data, init, now);
      forall e | e in Process(cfg, data, raws, now).live
        ensures e.score != 0.0 && exists r :: r in raws && Parse(r) == Some(e.market)
      {
        if e in Process(cfg, data, init, now).live {
          var r :| r in init && Parse(r) == Some(e.market);
          assert r in raws;
        } else {
          assert raw in raws;
        }
      }
    }
  }

  /** Evaluation sees the store before the market's own update: record `i` is scored
      against the store left by the records before it, and only then merged into it. Had
      it looked after the update, it would see no volume growth and no quote movement and
      never alert. */
  lemma EvaluatedBeforeUpdate(cfg: Config, data: StoreMap, raws: seq<RawRecord>, i: nat, now: real)
    requires i < |raws| && Parse(raws[i]).Some?
    ensures var m := Parse(raws[i]).value;
      var before := Process(cfg, data, raws[..i], now);
      var after := Process(cfg, data, raws[..i + 1], now);
      && after.store == Merge(before.store, m, now)
      && after.live == before.live + Entry(IsLive(cfg, m, Lookup(before.store, m.id)), m)
      && Entry(IsLive(cfg, m, Lookup(after.store, m.id)), m) == []
  {
    ProcessOneMore(cfg, data, raws, i, now);
    var m := Parse(raws[i]).value;
    var before := Process(cfg, data, raws[..i], now);
    assert PriceMove(m, Merge(before.store, m, now)[m.id]) == 0.0;
  }

  /** A parsed record leaves its snapshot in the store, counter one above the prior one. */
  lemma StepWritesSnapshot(cfg: Config, p: Pass, raw: RawRecord, now: real)
    requires Parse(raw).Some?
    ensures var m := Parse(raw).value;
      Lookup(Step(cfg, p, raw, now).store, m.id) ==
        Some(Snapshot(m.volume, m.bestBid, m.bestAsk, now, Some(PriorCount(p.store, m.id) + 1)))
  {
    MergeIncrements(p.store, Parse(raw).value, now);
  }

  /** A record that does not parse into a market with this id leaves its entry alone. */
  lemma StepKeepsOtherIds(cfg: Config, p: Pass, raw: RawRecord, now: real, id: string)
    requires !ParsesTo(raw, id)
    ensures Lookup(Step(cfg, p, raw, now).store, id) == Lookup(p.store, id)
  {
  }

  /** After record `i` is merged, the store holds its snapshot for the id until the next
      record with that id: the counter is one above what the store held before record `i`. */
  lemma {:induction false} SnapshotUntilNext(cfg: Config, data: StoreMap, raws: seq<RawRecord>, i: nat, j: nat, now: real)
    requires i < j <= |raws| && Parse(raws[i]).Some?
    requires forall k :: i < k < j ==> !ParsesTo(raws[k], Parse(raws[i]).value.id)
    ensures var m := Parse(raws[i]).value;
      Lookup(Process(cfg, data, raws[..j], now).store, m.id) ==
        Some(Snapshot(m.volume, m.bestBid, m.bestAsk, now,
                      Some(PriorCount(Process(cfg, data, raws[..i], now).store, m.id) + 1)))
    decreases j - i
  {
    var m := Parse(raws[i]).value;
    if j == i + 1 {
      ProcessOneMore(cfg, data, raws, i, now);
      StepWritesSnapshot(cfg, Process(cfg, data, raws[..i], now), raws[i], now);
    } else {
      SnapshotUntilNext(cfg, data, raws, i, j - 1, now);
      ProcessOneMore(cfg, data, raws, j - 1, now);
      StepKeepsOtherIds(cfg, Process(cfg, data, raws[..j - 1], now), raws[j - 1], now, m.id);
    }
  }

  /** A later occurrence `j` of the id of record `i`, with none in between, is scored
      against the snapshot record `i` wrote: its quotes and volume, this cycle's time, and
      the counter one above the one before record `i`. */
  lemma SecondOccurrenceSeesFirst(cfg: Config, data: StoreMap, raws: seq<RawRecord>, i: nat, j: nat, now: real)
    requires i < j < |raws| && Parse(raws[i]).Some? && ParsesTo(raws[j], Parse(raws[i]).value.id)
    requires forall k :: i < k < j ==> !ParsesTo(raws[k], Parse(raws[i]).value.id)
    ensures var m1, m2 := Parse(raws[i]).value, Parse(raws[j]).value;
      Process(cfg, data, raws[..j + 1], now).live ==
        Process(cfg, data, raws[..j], now).live +
        Entry(IsLive(cfg, m2, Some(Snapshot(m1.volume, m1.bestBid, m1.bestAsk, now,
          Some(PriorCount(Process(cfg, data, raws[..i], now).store, m1.id) + 1)))), m2)
  {
    SnapshotUntilNext(cfg, data, raws, i, j, now);
    ProcessOneMore(cfg, data, raws, j, now);
  }

  /** One poll of the feed: its records and the clock reading for the cycle. */
  datatype Poll = Poll(records: seq<RawRecord>, now: real)

  /** The store after running one cycle per poll, in order. */
  function StoreAfter(cfg: Config, data: StoreMap, polls: seq<Poll>): StoreMap
    decreases |polls|
  {
    if polls == [] then data
    else
      var last := polls[|polls| - 1];
      Process(cfg, StoreAfter(cfg, data, polls[..|polls| - 1]), last.records, last.now).store
  }

  /** A market never seen before and present once in each of N consecutive cycles has
      counter N. */
  lemma {:induction false} PersistenceCountsCycles(cfg: Config, data: StoreMap, polls: seq<Poll>, id: string)
    requires id !in data
    requires forall k :: 0 <= k < |polls| ==> Occurrences(polls[k].records, id) == 1
    ensures id in StoreAfter(cfg, data, polls) <==> polls != []
    ensures polls != [] ==> StoreAfter(cfg, data, polls)[id].persistence == Some(|polls|)
    decreases |polls|
  {
    if polls != [] {
      var init, last := polls[..|polls| - 1], polls[|polls| - 1];
      PersistenceCountsCycles(cfg, data, init, id);
      var before := StoreAfter(cfg, data, init);
      ProcessCountsOccurrences(cfg, before, last.records, last.now, id);
    }
  }

  /** The message parts of one alert. */
  datatype Notice = Notice(title: string, link: string)

  /** Title and link for one selected market, as `run_once` composes them. */
  function NoticeFor(cfg: Config, m: Market): Notice {
    Notice(Title(CleanQuestion(m.question), m.groupItemTitle), MarketLink(m.eventSlug, cfg.referralCode))
  }

  /** The alert loop of `run_once`: one notice per selected market, in selection order. */
  method ComposeNotices(cfg: Config, selected: seq<Scored>) returns (notices: seq<Notice>)
    ensures |notices| == |selected|
    ensures forall i :: 0 <= i < |selected| ==> notices[i] == NoticeFor(cfg, selected[i].market)
  {
    notices := [];
    for j := 0 to |selected|
      invariant |notices| == j
      invariant forall k :: 0 <= k < j ==> notices[k] == NoticeFor(cfg, selected[k].market)
    {
      var m := selected[j].market;
      var link := MarketLink(m.eventSlug, cfg.referralCode);
      var title := Title(CleanQuestion(m.question), m.groupItemTitle);
      var notice := Notice(title, link);
      assert notice == NoticeFor(cfg, selected[j].market);
      notices := notices + [notice];
    }
  }

  /** `LiveSpreadBot`, reduced to its configuration and its store. */
  class LiveSpreadBot {
    const cfg: Config
    const state: MarketState

    constructor (cfg: Config, loaded: StoreMap)
      ensures this.cfg == cfg && fresh(state) && state.data == loaded
    {
      this.cfg := cfg;
      state := new MarketState(loaded);
    }

    /** `run_once` on the fetched records `raws` at time `now`: the store becomes the
        result of processing every record in order, and the alerts are the stable
        descending ranking of the live entries cut to the limit, in that order. */
    method RunOnce(raws: seq<RawRecord>, now: real) returns (selected: seq<Scored>, notices: seq<Notice>)
      modifies state
      ensures state.data == Process(cfg, old(state.data), raws, now).store
      ensures selected == Select(cfg, Process(cfg, old(state.data), raws, now).live)
      ensures |notices| == |selected|
      ensures forall i :: 0 <= i < |selected| ==> notices[i] == NoticeFor(cfg, selected[i].market)
    {
      var live: seq<Scored> := [];
      var i := 0;
      while i < |raws|
        invariant 0 <= i <= |raws|
        invariant Process(cfg, old(state.data), raws[..i], now) == Pass(state.data, live)
      {
        ghost var before := Pass(state.data, live);
        var m := Parse(raws[i]);
        if m.Some? {
          var score := IsLive(cfg, m.value, state.Get(m.value.id));
          state.Update(m.value, now);
          if score.Some? && score.value != 0.0 {
            live := live + [Scored(score.value, m.value)];
          }
        }
        assert Pass(state.data, live) == Step(cfg, before, raws[i], now);
        ProcessOneMore(cfg, old(state.data), raws, i, now);
        i := i + 1;
      }
      assert raws[..i] == raws;
      live := SortDesc(live);
      selected := Take(live, cfg.maxAlertsPerCycle);
      notices := ComposeNotices(cfg, selected);
    }
  }
}

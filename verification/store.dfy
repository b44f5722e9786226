/** The snapshot store: an in-memory map from market id to its last snapshot. */
module Store {
  import opened Wrappers
  import opened Model

  type StoreMap = map<string, Snapshot>

  /** `dict.get`: the snapshot stored under `id`, if any. */
  function Lookup(data: StoreMap, id: string): (r: Option<Snapshot>)
    ensures r.Some? <==> id in data
    ensures r.Some? ==> r.value == data[id]
  {
    if id in data then Some(data[id]) else None
  }

  /** The counter an update stores on top of what was there before:
      0 stands for "never observed" and for a record without a counter. */
  function PriorCount(data: StoreMap, id: string): int {
    if id in data then data[id].persistence.GetOr(0) else 0
  }

  /** The store after merging observation `m` at time `now`: the entry for `m.id` is
      replaced by the observation's quotes and volume with the counter one above its
      prior value (1 for an unseen id), and every other entry is left alone. */
  function Merge(data: StoreMap, m: Market, now: real): (r: StoreMap)
    ensures r.Keys == data.Keys + {m.id}
    ensures r[m.id].volume == m.volume && r[m.id].bestBid == m.bestBid && r[m.id].bestAsk == m.bestAsk
    ensures r[m.id].lastSeen == now
    ensures m.id !in data ==> r[m.id].persistence == Some(1)
    ensures m.id in data ==> r[m.id].persistence == Some(data[m.id].persistence.GetOr(0) + 1)
    ensures forall id :: id in data && id != m.id ==> r[id] == data[id]
  {
    var prev := Lookup(data, m.id);
    var count := if prev.Some? then prev.value.persistence.GetOr(0) + 1 else 1;
    data[m.id := Snapshot(m.volume, m.bestBid, m.bestAsk, now, Some(count))]
  }

  /** The counter only grows: after a merge the entry's counter is the prior count plus one. */
  lemma MergeIncrements(data: StoreMap, m: Market, now: real)
    ensures Merge(data, m, now)[m.id].persistence == Some(PriorCount(data, m.id) + 1)
    ensures PriorCount(Merge(data, m, now), m.id) == PriorCount(data, m.id) + 1
  {
  }

  /** `MarketState`: the store object the bot owns. Loading and saving the JSON file
      are not modelled; the constructor takes the loaded map. */
  class MarketState {
    var data: StoreMap

    constructor (loaded: StoreMap)
      ensures data == loaded
    {
      data := loaded;
    }

    /** `get`: the snapshot for `id`, or none when the id was never observed. */
    function Get(id: string): (r: Option<Snapshot>)
      reads this
      ensures r.Some? <==> id in data
      ensures r.Some? ==> r.value == data[id]
    {
      Lookup(data, id)
    }

    /** `update`: merges one observation into the map in place; the clock reading
        `time.time()` is the parameter `now`. */
    method Update(m: Market, now: real)
      modifies this
      ensures data == Merge(old(data), m, now)
      ensures Get(m.id).Some? && Get(m.id).value.persistence == Some(PriorCount(old(data), m.id) + 1)
      ensures forall id :: id != m.id ==> Get(id) == old(Get(id))
    {
      var prev := Get(m.id);
      var persistence := if prev.Some? then prev.value.persistence.GetOr(0) + 1 else 1;
      data := data[m.id := Snapshot(m.volume, m.bestBid, m.bestAsk, now, Some(persistence))];
    }
  }
}

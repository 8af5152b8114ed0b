/**
 The `channel` slice: the same three reducers as the user slice, over the
 stored channel object. It is defined but not registered in the store.
 */
module ChannelSlice {
  import opened Outcomes
  import opened Records

  datatype State = State(channel: Option<Record>)

  /** No channel is stored initially. */
  function Initial(): (s: State)
    ensures s.channel.None?
  {
    State(None)
  }

  /** `addChannel(p)`: the stored channel becomes `p` itself. */
  function Add(s: State, payload: Option<Record>): (r: State)
    ensures r.channel == payload
  {
    State(payload)
  }

  /** `removeChannel()`. */
  function Remove(s: State): (r: State)
    ensures r.channel.None?
  {
    State(None)
  }

  /** `updateChannel(p)`: `{ ...channel, ...p }`. */
  function Update(s: State, patch: Option<Record>): (r: State)
    ensures r.channel.Some?
    ensures forall k :: k in Spread(patch) ==> Get(r.channel, k) == Some(Spread(patch)[k])
    ensures forall k :: k !in Spread(patch) ==> Get(r.channel, k) == Get(s.channel, k)
    ensures s.channel.None? ==> r.channel.value.Keys == Spread(patch).Keys
  {
    State(Some(Merge(s.channel, patch)))
  }

  lemma RemoveIdempotent(s: State)
    ensures Remove(Remove(s)) == Remove(s)
  {
  }

  /** An empty patch leaves a stored channel exactly as it was. */
  lemma UpdateEmptyKeepsChannel(s: State)
    requires s.channel.Some?
    ensures Update(s, Some(map[])) == s
  {
    MergeEmpty(s.channel.value);
  }
}

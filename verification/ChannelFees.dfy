/** Setting the fees of all channels (kld/src/api/channels.rs, set_channel_fee with id "all";
    kld/src/ldk/controller.rs, set_channel_fee). */
module ChannelFees {
  import opened Wrappers
  import opened Channels

  datatype Channel = Channel(channelId: ChannelId, peer: NodeId, scid: Option<nat>)
  datatype Fee = Fee(baseMsat: nat, ppm: nat)
  datatype Updated = Updated(fee: Fee, peer: NodeId, channelId: ChannelId, scid: Option<nat>)

  /** One accepted update_channel_config: all the channels it names change, or none. */
  datatype Call = Call(peer: NodeId, channelIds: seq<ChannelId>, fee: Fee)

  function FeeOf(base: Option<nat>, ppm: Option<nat>, user: Fee): Fee {
    Fee(if base.Some? then base.value else user.baseMsat, if ppm.Some? then ppm.value else user.ppm)
  }

  function Of(channels: seq<Channel>, peer: NodeId): seq<Channel> {
    if channels == [] then [] else
    var n := |channels| - 1;
    Of(channels[..n], peer) + if channels[n].peer == peer then [channels[n]] else []
  }

  lemma {:induction false} OfIsThatPeers(channels: seq<Channel>, peer: NodeId)
    ensures forall c :: c in Of(channels, peer) <==> c in channels && c.peer == peer
  {
    if channels != [] {
      var n := |channels| - 1;
      OfIsThatPeers(channels[..n], peer);
      assert channels == channels[..n] + [channels[n]];
    }
  }

  /** In the order in which they are listed. */
  lemma {:induction false} OfInOrder(before: seq<Channel>, after: seq<Channel>, peer: NodeId)
    ensures Of(before + after, peer) == Of(before, peer) + Of(after, peer)
  {
    if after == [] {
      assert before + after == before;
    } else {
      var n := |after| - 1;
      OfInOrder(before, after[..n], peer);
      assert (before + after)[..|before| + n] == before + after[..n];
    }
  }

  function Ids(channels: seq<Channel>): seq<ChannelId> {
    seq(|channels|, i requires 0 <= i < |channels| => channels[i].channelId)
  }

  function Answers(channels: seq<Channel>, fee: Fee): seq<Updated> {
    seq(|channels|, i requires 0 <= i < |channels| =>
      Updated(fee, channels[i].peer, channels[i].channelId, channels[i].scid))
  }

  function Calls(order: seq<NodeId>, channels: seq<Channel>, fee: Fee): seq<Call> {
    seq(|order|, i requires 0 <= i < |order| => Call(order[i], Ids(Of(channels, order[i])), fee))
  }

  function Response(order: seq<NodeId>, channels: seq<Channel>, fee: Fee): seq<Updated> {
    if order == [] then []
    else Response(order[..|order| - 1], channels, fee) + Answers(Of(channels, order[|order| - 1]), fee)
  }

  ghost function Peers(channels: seq<Channel>): set<NodeId> {
    set i | 0 <= i < |channels| :: channels[i].peer
  }

  ghost predicate Distinct(order: seq<NodeId>) {
    forall i, j :: 0 <= i < j < |order| ==> order[i] != order[j]
  }

  /** The request stopped at a peer still to be done whose call was refused. */
  ghost predicate Refused(channels: seq<Channel>, order: seq<NodeId>, fee: Fee, accepts: Call -> bool) {
    exists p :: p in Peers(channels) && p !in order && !accepts(Call(p, Ids(Of(channels, p)), fee))
  }

  /** `order` lists the peers already done. */
  ghost predicate Done(order: seq<NodeId>, peers: set<NodeId>, left: set<NodeId>) {
    && Distinct(order) && left <= peers
    && forall p :: p in order <==> p in peers && p !in left
  }

  lemma OneMoreDone(order: seq<NodeId>, peers: set<NodeId>, left: set<NodeId>, peer: NodeId)
    requires Done(order, peers, left) && peer in left
    ensures Done(order + [peer], peers, left - {peer})
  {
  }

  class ChannelManager {
    var calls: seq<Call>
    constructor ()
      ensures calls == []
    {
      calls := [];
    }
  }

  method GroupByPeer(channels: seq<Channel>) returns (groups: map<NodeId, seq<Channel>>)
    ensures groups.Keys == Peers(channels)
    ensures forall p :: p in groups ==> groups[p] == Of(channels, p)
  {
    groups := map[];
    for n := 0 to |channels|
      invariant groups.Keys == Peers(channels[..n])
      invariant forall p :: p in groups ==> groups[p] == Of(channels[..n], p)
    {
      var c := channels[n];
      assert channels[..n + 1][..n] == channels[..n];
      assert Peers(channels[..n + 1]) == Peers(channels[..n]) + {c.peer} by { PeersGrow(channels, n); }
      if c.peer !in groups { NobodyOf(channels[..n], c.peer); }
      if c.peer in groups {
        groups := groups[c.peer := groups[c.peer] + [c]];
      } else {
        groups := groups[c.peer := [c]];
      }
    }
    assert channels[..|channels|] == channels;
  }

  lemma PeersGrow(channels: seq<Channel>, n: nat)
    requires n < |channels|
    ensures Peers(channels[..n + 1]) == Peers(channels[..n]) + {channels[n].peer}
  {
    forall p | p in Peers(channels[..n + 1]) ensures p in Peers(channels[..n]) + {channels[n].peer} {
      var i :| 0 <= i < n + 1 && channels[..n + 1][i].peer == p;
      if i < n { assert channels[..n][i].peer == p; }
    }
    forall p | p in Peers(channels[..n]) ensures p in Peers(channels[..n + 1]) {
      var i :| 0 <= i < n && channels[..n][i].peer == p;
      assert channels[..n + 1][i].peer == p;
    }
    assert channels[..n + 1][n].peer == channels[n].peer;
  }

  lemma {:induction false} NobodyOf(channels: seq<Channel>, peer: NodeId)
    requires peer !in Peers(channels)
    ensures Of(channels, peer) == []
  {
    if channels != [] {
      var n := |channels| - 1;
      assert channels[n].peer in Peers(channels);
      assert channels[..n + 1] == channels;
      PeersGrow(channels, n);
      NobodyOf(channels[..n], peer);
    }
  }

  lemma OneMorePeer(order: seq<NodeId>, peer: NodeId, channels: seq<Channel>, fee: Fee)
    ensures Calls(order + [peer], channels, fee)
         == Calls(order, channels, fee) + [Call(peer, Ids(Of(channels, peer)), fee)]
    ensures Response(order + [peer], channels, fee) == Response(order, channels, fee) + Answers(Of(channels, peer), fee)
  {
    assert (order + [peer])[..|order|] == order;
  }

  /** Each part of the fee is the one asked for, or else the configured one. */
  ghost predicate RightFee(fee: Fee, base: Option<nat>, ppm: Option<nat>, user: Fee) {
    && (base.Some? ==> fee.baseMsat == base.value) && (base.None? ==> fee.baseMsat == user.baseMsat)
    && (ppm.Some? ==> fee.ppm == ppm.value) && (ppm.None? ==> fee.ppm == user.ppm)
  }

  /** `accepts` is the channel manager's verdict on one call; a refusal ends the request, leaving
      the peers done so far with the new fee. `order` is the order in which the map is walked. */
  method SetAll(manager: ChannelManager, channels: seq<Channel>, base: Option<nat>, ppm: Option<nat>, user: Fee,
                accepts: Call -> bool) returns (r: Result<seq<Updated>, ()>, ghost order: seq<NodeId>)
    modifies manager
    ensures Distinct(order) && forall p :: p in order ==> p in Peers(channels)
    ensures manager.calls == old(manager.calls) + Calls(order, channels, FeeOf(base, ppm, user))
    ensures r.Ok? ==> r.value == Response(order, channels, FeeOf(base, ppm, user))
                      && forall p :: p in Peers(channels) ==> p in order
    ensures r.Err? ==> Refused(channels, order, FeeOf(base, ppm, user), accepts)
    ensures forall i :: |old(manager.calls)| <= i < |manager.calls| ==> RightFee(manager.calls[i].fee, base, ppm, user)
    ensures r.Ok? ==> forall i :: 0 <= i < |r.value| ==> RightFee(r.value[i].fee, base, ppm, user)
  {
    var groups := GroupByPeer(channels);
    ghost var left;
    r, order, left := Walk(manager, channels, groups, FeeOf(base, ppm, user), accepts);
    ResponseHasFee(order, channels, FeeOf(base, ppm, user));
  }

  lemma {:induction false} ResponseHasFee(order: seq<NodeId>, channels: seq<Channel>, fee: Fee)
    ensures forall i :: 0 <= i < |Response(order, channels, fee)| ==> Response(order, channels, fee)[i].fee == fee
  {
    if order != [] { ResponseHasFee(order[..|order| - 1], channels, fee); }
  }

  method Walk(manager: ChannelManager, ghost channels: seq<Channel>, groups: map<NodeId, seq<Channel>>, fee: Fee,
              accepts: Call -> bool)
    returns (r: Result<seq<Updated>, ()>, ghost order: seq<NodeId>, ghost left: set<NodeId>)
    requires forall p :: p in groups ==> groups[p] == Of(channels, p)
    modifies manager
    ensures Done(order, groups.Keys, left) && (r.Ok? ==> left == {})
    ensures manager.calls == old(manager.calls) + Calls(order, channels, fee)
    ensures r.Ok? ==> r.value == Response(order, channels, fee)
    ensures r.Err? ==> exists p :: p in left && !accepts(Call(p, Ids(Of(channels, p)), fee))
  {
    var todo := groups.Keys;
    var updated: seq<Updated> := [];
    order, left := [], todo;
    while todo != {}
      invariant left == todo && Done(order, groups.Keys, left)
      invariant manager.calls == old(manager.calls) + Calls(order, channels, fee)
      invariant updated == Response(order, channels, fee)
      decreases todo
    {
      var peer :| peer in todo;
      OneMorePeer(order, peer, channels, fee);
      OneMoreDone(order, groups.Keys, left, peer);
      OfIsThatPeers(channels, peer);
      var answers := SetPeer(manager, peer, groups[peer], fee, accepts);
      if answers.Err? {
        return Err(()), order, left;
      }
      updated := updated + answers.value;
      order := order + [peer];
      todo := todo - {peer};
      left := todo;
    }
    return Ok(updated), order, left;
  }

  /** One round of the walk over the groups. */
  method SetPeer(manager: ChannelManager, peer: NodeId, group: seq<Channel>, fee: Fee, accepts: Call -> bool)
    returns (r: Result<seq<Updated>, ()>)
    requires forall c :: c in group ==> c.peer == peer
    modifies manager
    ensures r.Ok? <==> accepts(Call(peer, Ids(group), fee))
    ensures r.Ok? ==> r.value == Answers(group, fee)
                      && manager.calls == old(manager.calls) + [Call(peer, Ids(group), fee)]
    ensures r.Err? ==> manager.calls == old(manager.calls)
  {
    var call := Call(peer, Ids(group), fee);
    if !accepts(call) {
      return Err(());
    }
    manager.calls := manager.calls + [call];
    var answers := [];
    for n := 0 to |group|
      invariant answers == Answers(group[..n], fee)
    {
      assert group[n] in group;
      answers := answers + [Updated(fee, peer, group[n].channelId, group[n].scid)];
    }
    assert group[..|group|] == group;
    return Ok(answers);
  }

  // ---- What the answer says ----

  lemma {:induction false} ResponseWithoutPeer(order: seq<NodeId>, channels: seq<Channel>, c: Channel, fee: Fee)
    requires c.peer !in order
    ensures Response(order, channels + [c], fee) == Response(order, channels, fee)
  {
    if order != [] {
      ResponseWithoutPeer(order[..|order| - 1], channels, c, fee);
      assert (channels + [c])[..|channels|] == channels;
      assert order[|order| - 1] in order;
    }
  }

  lemma {:induction false} ResponseGainsChannel(order: seq<NodeId>, channels: seq<Channel>, c: Channel, fee: Fee)
    requires Distinct(order) && c.peer in order
    ensures multiset(Response(order, channels + [c], fee))
            == multiset(Response(order, channels, fee)) + multiset{Updated(fee, c.peer, c.channelId, c.scid)}
  {
    var n := |order| - 1;
    assert order == order[..n] + [order[n]];
    AnswersGainChannel(order[n], channels, c, fee);
    if order[n] == c.peer {
      assert c.peer !in order[..n];
      ResponseWithoutPeer(order[..n], channels, c, fee);
    } else {
      ResponseGainsChannel(order[..n], channels, c, fee);
    }
  }

  lemma AnswersGainChannel(peer: NodeId, channels: seq<Channel>, c: Channel, fee: Fee)
    ensures Answers(Of(channels + [c], peer), fee) == Answers(Of(channels, peer), fee) +
              if peer == c.peer then [Updated(fee, c.peer, c.channelId, c.scid)] else []
  {
    assert (channels + [c])[..|channels|] == channels;
  }

  lemma {:induction false} ResponseOfNothing(order: seq<NodeId>, fee: Fee)
    ensures Response(order, [], fee) == []
  {
    if order != [] { ResponseOfNothing(order[..|order| - 1], fee); }
  }

  lemma {:induction false} ResponseIsAnswers(order: seq<NodeId>, channels: seq<Channel>, fee: Fee)
    requires Distinct(order) && forall c :: c in channels ==> c.peer in order
    ensures multiset(Response(order, channels, fee)) == multiset(Answers(channels, fee))
    decreases |channels|
  {
    if channels == [] {
      ResponseOfNothing(order, fee);
    } else {
      var n := |channels| - 1;
      assert channels == channels[..n] + [channels[n]];
      ResponseIsAnswers(order, channels[..n], fee);
      ResponseGainsChannel(order, channels[..n], channels[n], fee);
      assert Answers(channels, fee) == Answers(channels[..n], fee) + Answers([channels[n]], fee);
    }
  }

  /** One entry for each channel in turn, with its own peer, id and short id, and the fee. */
  ghost predicate OneEach(answers: seq<Updated>, channels: seq<Channel>, fee: Fee) {
    && |answers| == |channels|
    && forall i :: 0 <= i < |channels| ==>
         && answers[i].fee == fee && answers[i].peer == channels[i].peer
         && answers[i].channelId == channels[i].channelId && answers[i].scid == channels[i].scid
  }

  /** A successful answer names every active channel exactly once, under its own peer, all with the
      one fee of the request: it is, up to its order, one entry for each. */
  lemma EveryChannelOnce(order: seq<NodeId>, channels: seq<Channel>, fee: Fee) returns (answers: seq<Updated>)
    requires Distinct(order) && forall c :: c in channels ==> c.peer in order
    ensures OneEach(answers, channels, fee) && multiset(Response(order, channels, fee)) == multiset(answers)
  {
    answers := Answers(channels, fee);
    ResponseIsAnswers(order, channels, fee);
  }

  /** Each call names the channels of its own peer, all of them and no others, in their order. */
  lemma CallsArePerPeer(order: seq<NodeId>, channels: seq<Channel>, fee: Fee, i: nat, id: ChannelId)
    requires i < |order|
    ensures (var call := Calls(order, channels, fee)[i];
      && call.peer == order[i] && call.fee == fee
      && (id in call.channelIds <==> exists c :: c in channels && c.peer == order[i] && c.channelId == id))
  {
    var group := Of(channels, order[i]);
    OfIsThatPeers(channels, order[i]);
    if id in Ids(group) {
      var k :| 0 <= k < |group| && Ids(group)[k] == id;
      assert group[k] in group;
    }
    if c :| c in channels && c.peer == order[i] && c.channelId == id {
      var k :| 0 <= k < |group| && group[k] == c;
      assert Ids(group)[k] == id;
    }
  }
}

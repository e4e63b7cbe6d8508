/** Channels as the lightning library describes them and as records of the channels table. */
module Channels {
  import opened Wrappers
  import opened Integers

  type ChannelId = seq<int>
  type NodeId = seq<int>

  datatype OutPoint = OutPoint(txid: seq<int>, index: U16)

  datatype Exposure = FixedLimitMsat(limit: nat) | FeeRateMultiplier(factor: nat)

  datatype Config = Config(proportionalMillionths: nat, baseMsat: nat, cltvExpiryDelta: nat,
                           maxDustHtlcExposure: Exposure, avoidanceMaxFee: nat, acceptUnderpaying: bool)

  /** A ChannelDetails; `rest` stands for the fields that are only stored and shown. */
  datatype Detail = Detail(channelId: ChannelId, counterparty: NodeId, scid: Option<nat>, isUsable: bool,
                           isPublic: bool, config: Option<Config>, rest: seq<int>)

  /** A ChannelRecord. */
  datatype Record = Record(channelId: ChannelId, counterparty: NodeId, openTimestamp: int, updateTimestamp: int,
                           closureReason: Option<string>, detail: Option<Detail>)
}

/** The balance report (kld/src/api/channels.rs, local_remote_balance). Amounts are u64: an optimised
    build wraps around where a sum or difference leaves the range, and so does this model. */
module Balances {
  import opened Integers

  datatype Channel = Channel(isUsable: bool, isReady: bool, balanceMsat: U64, valueSat: U64)
  datatype Report = Report(inactive: nat, pending: nat, local: nat, remote: nat)

  /** The sums the report is meant to show. */
  datatype Totals = Totals(local: int, remote: int, inactive: int, pending: int)

  function Counted(t: Totals, c: Channel): Totals {
    if c.isUsable then
      t.(local := t.local + c.balanceMsat, remote := t.remote + c.valueSat * 1000 - c.balanceMsat)
    else if c.isReady then t.(inactive := t.inactive + c.balanceMsat)
    else t.(pending := t.pending + c.balanceMsat)
  }

  function Exact(channels: seq<Channel>): Totals {
    if channels == [] then Totals(0, 0, 0, 0) else Counted(Exact(channels[..|channels| - 1]), channels[|channels| - 1])
  }

  /** The report of these totals, in satoshis, as sums that wrap around give it. */
  function Wrapped(t: Totals): Report {
    Report(Wrap(t.inactive) / 1000, Wrap(t.pending) / 1000, Wrap(t.local) / 1000, Wrap(t.remote) / 1000)
  }

  function Filter(channels: seq<Channel>, keep: Channel -> bool): seq<Channel> {
    if channels == [] then []
    else
      var last := channels[|channels| - 1];
      Filter(channels[..|channels| - 1], keep) + if keep(last) then [last] else []
  }

  /** A filtered list holds just the channels of its kind, as often as they were there. */
  lemma {:induction false} FilterKeeps(channels: seq<Channel>, keep: Channel -> bool, c: Channel)
    ensures multiset(Filter(channels, keep))[c] == if keep(c) then multiset(channels)[c] else 0
  {
    if channels != [] {
      var n := |channels| - 1;
      FilterKeeps(channels[..n], keep, c);
      assert channels == channels[..n] + [channels[n]];
    }
  }

  predicate Usable(c: Channel) { c.isUsable }
  predicate Inactive(c: Channel) { c.isReady && !c.isUsable }
  predicate Pending(c: Channel) { !c.isReady && !c.isUsable }

  /** Each total by itself: the balances of the channels of one kind, and what the peers hold in the usable
      ones. */
  lemma {:induction false} EachTotal(channels: seq<Channel>)
    ensures (var t := Exact(channels);
      && t.local == SumBalances(Filter(channels, Usable))
      && t.inactive == SumBalances(Filter(channels, Inactive))
      && t.pending == SumBalances(Filter(channels, Pending))
      && t.remote == 1000 * SumValues(Filter(channels, Usable)) - SumBalances(Filter(channels, Usable)))
  {
    if channels != [] {
      var n := |channels| - 1;
      EachTotal(channels[..n]);
      OneMore(channels, Usable);
      OneMore(channels, Inactive);
      OneMore(channels, Pending);
    }
  }

  lemma OneMore(channels: seq<Channel>, keep: Channel -> bool)
    requires channels != []
    ensures (var n := |channels| - 1;
      var before, all, c := Filter(channels[..n], keep), Filter(channels, keep), channels[n];
      && SumBalances(all) == SumBalances(before) + (if keep(c) then c.balanceMsat else 0)
      && SumValues(all) == SumValues(before) + (if keep(c) then c.valueSat else 0))
  {
    var n := |channels| - 1;
    SumsGrow(Filter(channels[..n], keep), channels[n]);
    assert Filter(channels[..n], keep) + [] == Filter(channels[..n], keep);
  }

  lemma SumsGrow(channels: seq<Channel>, c: Channel)
    ensures SumBalances(channels + [c]) == SumBalances(channels) + c.balanceMsat
    ensures SumValues(channels + [c]) == SumValues(channels) + c.valueSat
  {
    assert (channels + [c])[..|channels|] == channels;
  }

  function SumValues(channels: seq<Channel>): nat {
    if channels == [] then 0
    else SumValues(channels[..|channels| - 1]) + channels[|channels| - 1].valueSat
  }

  method LocalRemoteBalance(channels: seq<Channel>) returns (report: Report)
    ensures report == Wrapped(Exact(channels))
  {
    var local: U64, remote: U64, pending: U64, inactive: U64 := 0, 0, 0, 0;
    for n := 0 to |channels|
      invariant (var t := Exact(channels[..n]);
        && local == Wrap(t.local) && remote == Wrap(t.remote)
        && pending == Wrap(t.pending) && inactive == Wrap(t.inactive))
    {
      var c := channels[n];
      assert channels[..n + 1][..n] == channels[..n];
      ghost var t := Exact(channels[..n]);
      if c.isUsable {
        WrapAdd(t.local, c.balanceMsat);
        local := Wrap(local + c.balanceMsat);
        WrapRemote(t.remote, c);
        remote := Wrap(remote + Wrap(Wrap(c.valueSat * 1000) - c.balanceMsat));
      } else if c.isReady {
        WrapAdd(t.inactive, c.balanceMsat);
        inactive := Wrap(inactive + c.balanceMsat);
      } else {
        WrapAdd(t.pending, c.balanceMsat);
        pending := Wrap(pending + c.balanceMsat);
      }
    }
    assert channels[..|channels|] == channels;
    report := Report(inactive / 1000, pending / 1000, local / 1000, remote / 1000);
  }

  /** Each reported figure by itself, from the channels of its own kind. */
  lemma EachFigure(channels: seq<Channel>)
    ensures (var report, usable := Wrapped(Exact(channels)), Filter(channels, Usable);
      && report.inactive == Wrap(SumBalances(Filter(channels, Inactive))) / 1000
      && report.pending == Wrap(SumBalances(Filter(channels, Pending))) / 1000
      && report.local == Wrap(SumBalances(usable)) / 1000
      && report.remote == Wrap(1000 * SumValues(usable) - SumBalances(usable)) / 1000)
  {
    EachTotal(channels);
  }

  /** Wrapping the parts first changes nothing. */
  lemma WrapRemote(total: int, c: Channel)
    ensures Wrap(Wrap(total) + Wrap(Wrap(c.valueSat * 1000) - c.balanceMsat))
         == Wrap(total + c.valueSat * 1000 - c.balanceMsat)
  {
    WrapAdd(c.valueSat * 1000, 0 - c.balanceMsat);
    WrapAdd(c.valueSat * 1000 - c.balanceMsat, Wrap(total));
    WrapAdd(total, c.valueSat * 1000 - c.balanceMsat);
  }

  function SumBalances(channels: seq<Channel>): nat {
    if channels == [] then 0
    else SumBalances(channels[..|channels| - 1]) + channels[|channels| - 1].balanceMsat
  }

  ghost predicate WithinValue(channels: seq<Channel>) {
    forall i :: 0 <= i < |channels| ==> channels[i].balanceMsat <= channels[i].valueSat * 1000
  }

  /** Every balance is counted once, and the usable value is split between the two sides. */
  lemma {:induction false} TotalsConserve(channels: seq<Channel>)
    ensures (var t := Exact(channels);
      && t.local + t.inactive + t.pending == SumBalances(channels)
      && t.local + t.remote == 1000 * SumValues(Filter(channels, Usable))
      && t.local >= 0 && t.inactive >= 0 && t.pending >= 0
      && (WithinValue(channels) ==> t.remote >= 0))
  {
    if channels != [] {
      TotalsConserve(channels[..|channels| - 1]);
      OneMore(channels, Usable);
      assert WithinValue(channels) ==> WithinValue(channels[..|channels| - 1]);
    }
  }

  /** What the four figures are meant to be. */
  predicate Shows(report: Report, t: Totals) {
    && report.inactive == t.inactive / 1000 && report.pending == t.pending / 1000
    && report.local == t.local / 1000 && report.remote == t.remote / 1000
  }

  predicate Fits(n: int) { 0 <= n < TWO_64 }

  /** A figure survives the wrapping only with its whole total: 1000 divides no difference of 2^64 away. */
  lemma FigureExactWhen(total: int)
    ensures Wrap(total) / 1000 == total / 1000 <==> Fits(total)
  {
    if !Fits(total) {
      assert total < 0 ==> total / 1000 < 0;
      assert total >= TWO_64 ==> total - Wrap(total) >= TWO_64;
    }
  }

  /** The report shows the exact totals if and only if all four of them are 64-bit numbers. */
  lemma ReportExactWhen(channels: seq<Channel>)
    ensures (var t := Exact(channels);
      Shows(Wrapped(t), t) <==> Fits(t.inactive) && Fits(t.pending) && Fits(t.local) && Fits(t.remote))
  {
    var t := Exact(channels);
    FigureExactWhen(t.inactive);
    FigureExactWhen(t.pending);
    FigureExactWhen(t.local);
    FigureExactWhen(t.remote);
  }

  /** One usable channel whose balance exceeds its value: the remote side is reported as more than
      10^16 satoshis. */
  lemma ReportWrapsAround()
    ensures (var channels := [Channel(true, true, 1000, 0)];
      Exact(channels).remote == -1000 && Wrapped(Exact(channels)).remote == 18446744073709550)
  {
    var channels := [Channel(true, true, 1000, 0)];
    assert channels[..0] == [];
    assert Exact(channels) == Counted(Exact([]), channels[0]);
    WrapsOutside(-1000 + TWO_64);
  }

  /** When every balance is within its channel's value and the sums fit in 64 bits, the report is exact, and
      the two sides reported in satoshis add up to the usable value, one short of it when the local
      side is not a whole number of satoshis. */
  lemma ReportedSidesAddUp(channels: seq<Channel>)
    requires WithinValue(channels) && SumBalances(channels) < TWO_64
    requires 1000 * SumValues(Filter(channels, Usable)) < TWO_64
    ensures (var t := Exact(channels); var report := Wrapped(t);
      && Shows(report, t)
      && report.local + report.remote == SumValues(Filter(channels, Usable)) - if t.local % 1000 == 0 then 0 else 1)
  {
    TotalsConserve(channels);
    var t := Exact(channels);
    ReportExactWhen(channels);
    HalvesRound(t.local, t.remote, SumValues(Filter(channels, Usable)));
  }

  lemma HalvesRound(a: nat, b: nat, s: nat)
    requires a + b == 1000 * s
    ensures a / 1000 + b / 1000 == s - if a % 1000 == 0 then 0 else 1
  {
  }
}

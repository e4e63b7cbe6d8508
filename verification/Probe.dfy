/** Probing the paths of a route (kld/src/ldk/controller.rs, send_probe). */
module Probe {
  import opened Wrappers

  datatype Hop = Hop(nodeId: seq<int>, scid: nat, fee: nat)
  datatype Path = Path(hops: seq<Hop>, blindedTail: Option<seq<int>>)

  /** One call of the channel manager and its verdict. */
  datatype Attempt = Attempt(path: Path, accepted: bool)

  datatype Report = Successful(path: Path) | FailedAt(path: Path, scid: nat)

  /** `verdict` may depend on the time, that is on how many probes were sent before. */
  type Verdict = (nat, Path) -> bool

  class Prober {
    var attempts: seq<Attempt>
    /** What the scorer was told. Nothing is reported when the clock cannot measure the attempt. */
    var reports: seq<Report>
    /** The three counters, when metrics are on. */
    var total: nat
    var successes: nat
    var failures: nat

    constructor ()
      ensures attempts == [] && reports == [] && total == successes == failures == 0
    {
      attempts, reports, total, successes, failures := [], [], 0, 0, 0;
    }

    method SendProbe(path: Path, verdict: Verdict) returns (ok: bool)
      modifies this`attempts
      ensures ok == verdict(|old(attempts)|, path) && attempts == old(attempts) + [Attempt(path, ok)]
    {
      ok := verdict(|attempts|, path);
      attempts := attempts + [Attempt(path, ok)];
    }

    method ProbePath(path: Path, verdict: Verdict, timed: bool, counted: bool) returns (ghost sent: seq<Attempt>)
      modifies this
      ensures counted ==> total == old(total) + 1
      ensures counted ==> total - old(total) == (successes - old(successes)) + (failures - old(failures))
      ensures !counted ==> total == old(total) && successes == old(successes) && failures == old(failures)
      ensures attempts == old(attempts) + sent && sent != [] && sent[0].path == path
      ensures sent[0].accepted ==>
                && |sent| == 1 && reports == old(reports) + (if timed then [Successful(path)] else [])
                && (counted ==> successes == old(successes) + 1)
      ensures !sent[0].accepted ==>
                && ProbedDown(path, sent, timed, old(reports), reports)
                && (counted ==> failures == old(failures) + 1)
    {
      if counted { total := total + 1; }
      var ok := SendProbe(path, verdict);
      sent := [Attempt(path, ok)];
      if ok {
        if counted { successes := successes + 1; }
        if timed { reports := reports + [Successful(path)]; }
      } else {
        if counted { failures := failures + 1; }
        ghost var tried := FindBadHop(path, verdict, timed);
        sent := sent + tried;
      }
    }

    /** The loop that takes one hop off the end at a time until a shorter path is accepted. */
    method FindBadHop(path: Path, verdict: Verdict, timed: bool) returns (ghost tried: seq<Attempt>)
      modifies this`attempts, this`reports
      ensures attempts == old(attempts) + tried
      ensures ProbedDown(path, [Attempt(path, false)] + tried, timed, old(reports), reports)
    {
      var hops := path.hops;
      tried := [];
      ghost var sent := [Attempt(path, false)];
      while hops != []
        invariant sent == [Attempt(path, false)] + tried
        invariant |hops| <= |path.hops| && hops == path.hops[..|hops|]
        invariant |sent| == if hops == [] && path.hops != [] then |path.hops| else |path.hops| - |hops| + 1
        invariant attempts == old(attempts) + tried && reports == old(reports)
        invariant AllRejected(path, sent)
        decreases |hops|
      {
        var popped := hops[|hops| - 1];
        hops := hops[..|hops| - 1];
        if hops != [] {
          var shorter := Path(hops, path.blindedTail);
          var ok := SendProbe(shorter, verdict);
          NextAttempt(path, sent, hops, ok);
          tried := tried + [Attempt(shorter, ok)];
          sent := sent + [Attempt(shorter, ok)];
          assert sent == [Attempt(path, false)] + tried;
          if ok {
            hops := hops + [popped];
            assert hops == path.hops[..|path.hops| - |sent| + 2];
            if timed {
              reports := reports + [FailedAt(Path(hops, path.blindedTail), popped.scid)];
            }
            return;
          }
        }
      }
    }

    /** All the paths of a route, each in its turn; `sent` lists the attempts for each. */
    method ProbeRoute(paths: seq<Path>, verdict: Verdict, timed: nat -> bool, counted: bool)
      returns (ghost sent: seq<seq<Attempt>>)
      modifies this
      ensures |sent| == |paths| && attempts == old(attempts) + Flat(sent)
      ensures forall n :: 0 <= n < |paths| ==> ProbedInTurn(paths[n], sent[n])
      ensures counted ==> total == old(total) + |paths|
      ensures counted ==> total - old(total) == (successes - old(successes)) + (failures - old(failures))
    {
      sent := [];
      for n := 0 to |paths|
        invariant |sent| == n && attempts == old(attempts) + Flat(sent)
        invariant forall i :: 0 <= i < n ==> ProbedInTurn(paths[i], sent[i])
        invariant counted ==> total == old(total) + n
        invariant counted ==> total - old(total) == (successes - old(successes)) + (failures - old(failures))
      {
        ghost var one := ProbePath(paths[n], verdict, timed(n), counted);
        assert (sent + [one])[..n] == sent;
        sent := sent + [one];
      }
    }
  }

  function Flat(sent: seq<seq<Attempt>>): seq<Attempt> {
    if sent == [] then [] else Flat(sent[..|sent| - 1]) + sent[|sent| - 1]
  }

  /** The path itself was probed first, and shorter ones only if it was rejected, up to the first accepted. */
  ghost predicate ProbedInTurn(path: Path, sent: seq<Attempt>) {
    && sent != [] && sent[0].path == path && Shrinking(path, sent)
    && forall i :: 0 <= i < |sent| - 1 ==> !sent[i].accepted
  }

  /** The i-th attempt is for the path without its last i hops, the same blinded tail throughout. */
  ghost predicate Shrinking(path: Path, sent: seq<Attempt>) {
    forall i :: 0 <= i < |sent| ==>
      && (i == 0 || i < |path.hops|)
      && sent[i].path == Path(if i == 0 then path.hops else path.hops[..|path.hops| - i], path.blindedTail)
  }

  ghost predicate AllRejected(path: Path, sent: seq<Attempt>) {
    Shrinking(path, sent) && forall i :: 0 <= i < |sent| ==> !sent[i].accepted
  }

  lemma NextAttempt(path: Path, sent: seq<Attempt>, hops: seq<Hop>, ok: bool)
    requires sent != [] && AllRejected(path, sent)
    requires hops != [] && |hops| == |path.hops| - |sent| && hops == path.hops[..|hops|]
    ensures (var sent' := sent + [Attempt(Path(hops, path.blindedTail), ok)];
      && Shrinking(path, sent') && |sent'| <= |path.hops|
      && (forall i :: 0 <= i < |sent'| - 1 ==> !sent'[i].accepted)
      && (!ok ==> AllRejected(path, sent')))
  {
  }

  /** The attempts for a path that was rejected: ever shorter, at most one per hop, ending at the first
      that is accepted or at a single hop; and the report this gives rise to. */
  ghost predicate ProbedDown(path: Path, sent: seq<Attempt>, timed: bool, before: seq<Report>, after: seq<Report>) {
    && sent != [] && Shrinking(path, sent) && |sent| <= (if path.hops == [] then 1 else |path.hops|)
    && (forall i :: 0 <= i < |sent| - 1 ==> !sent[i].accepted)
    && (if sent[|sent| - 1].accepted && 2 <= |sent|
        then after == before + if timed then [Blame(path, |sent|)] else []
        else after == before && !sent[|sent| - 1].accepted && (path.hops == [] || |sent| == |path.hops|))
  }

  /** The report after n attempts of which only the last was accepted: one hop more than that. */
  function Blame(path: Path, n: nat): Report
    requires 2 <= n <= |path.hops|
  {
    FailedAt(Path(path.hops[..|path.hops| - n + 2], path.blindedTail), path.hops[|path.hops| - n + 1].scid)
  }

  /** What a report of a failure means: the reported path is a prefix of the probed one whose last hop
      is the blamed channel; without that hop it was accepted; with it, and with every hop up to the
      full path, it was rejected before. */
  lemma BlameIsWhereItBreaks(path: Path, sent: seq<Attempt>)
    requires 2 <= |sent| <= |path.hops| && Shrinking(path, sent)
    requires sent[|sent| - 1].accepted && forall i :: 0 <= i < |sent| - 1 ==> !sent[i].accepted
    ensures (var report := Blame(path, |sent|); var hops := report.path.hops;
      && hops <= path.hops && hops != [] && hops[|hops| - 1].scid == report.scid
      && report.path.blindedTail == path.blindedTail
      && Attempt(Path(hops[..|hops| - 1], path.blindedTail), true) in sent
      && (forall k :: |hops| <= k <= |path.hops| ==> Attempt(Path(path.hops[..k], path.blindedTail), false) in sent))
  {
    var n, m := |sent|, |path.hops|;
    var hops := Blame(path, n).path.hops;
    assert hops[..|hops| - 1] == path.hops[..m - (n - 1)];
    assert sent[n - 1] in sent;
    forall k | |hops| <= k <= m ensures Attempt(Path(path.hops[..k], path.blindedTail), false) in sent {
      var i := m - k;
      assert path.hops[..m] == path.hops;
      assert sent[i].path == Path(path.hops[..k], path.blindedTail);
      assert sent[i] in sent;
    }
  }
}

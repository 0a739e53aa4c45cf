/** The long-running agent (agent.go). The poller and the updater are run one after the other
    over the poll results instead of concurrently: the client's answers are given up front, the
    `n`-th answer to `MyIPWithContext` being the result of the `n`-th tick, and `updates(k)` the
    answer to the `k`-th `UpdateAliasWithContext` call (call 0 is the bootstrap). `net.IP.Equal`
    is the parameter `equal`. */
module Agent {
  import opened Results

  /** Go errors as far as the agent sees them: `errors.Is` looks through `Wrapped`. */
  datatype Error =
    | Canceled                                   // context.Canceled
    | Message(text: string)                      // an error from the client
    | Wrapped(context: string, inner: Error)     // fmt.Errorf("<context>: %w", inner)

  /** `errors.Is(e, target)`. */
  predicate Is(e: Error, target: Error)
  {
    e == target || (e.Wrapped? && Is(e.inner, target))
  }

  /** What one client call returns: an IP address or an error. */
  datatype Reply<IP> = Got(ip: IP) | Failed(err: Error)

  /** The IP addresses `pollIP` sends on the channel, one per successful fetch, in tick order. */
  function Forwarded<IP>(polls: seq<Reply<IP>>): (r: seq<IP>)
    ensures |r| <= |polls|
  {
    if polls == [] then []
    else
      var last := polls[|polls| - 1];
      Forwarded(polls[..|polls| - 1]) + (if last.Got? then [last.ip] else [])
  }

  /** A failed fetch sends nothing, a successful one sends exactly its address, and polling goes
      on either way. */
  lemma ForwardedStep<IP>(polls: seq<Reply<IP>>, next: Reply<IP>)
    ensures next.Failed? ==> Forwarded(polls + [next]) == Forwarded(polls)
    ensures next.Got? ==> Forwarded(polls + [next]) == Forwarded(polls) + [next.ip]
  {
    assert (polls + [next])[..|polls|] == polls;
  }

  /** Only fetched addresses are forwarded, and every fetched address is. */
  lemma {:induction false} ForwardedAreFetched<IP>(polls: seq<Reply<IP>>)
    ensures forall ip :: ip in Forwarded(polls) <==> Got(ip) in polls
  {
    if polls != [] {
      var init := polls[..|polls| - 1];
      ForwardedAreFetched(init);
      assert polls == init + [polls[|polls| - 1]];
    }
  }

  /** `pollIP`: one fetch per tick until cancellation; the fetched address is sent when the fetch
      succeeds, and a failure is only logged. */
  method PollIP<IP>(polls: seq<Reply<IP>>) returns (sent: seq<IP>, fetches: nat)
    ensures sent == Forwarded(polls)
    ensures fetches == |polls|
  {
    sent, fetches := [], 0;
    while fetches < |polls|
      invariant fetches <= |polls|
      invariant sent == Forwarded(polls[..fetches])
    {
      var myIP := polls[fetches];
      assert polls[..fetches + 1][..fetches] == polls[..fetches];
      if myIP.Got? {
        sent := sent + [myIP.ip];
      }
      fetches := fetches + 1;
    }
    assert polls[..fetches] == polls;
  }

  /** The updater's state: the baseline address and how many `UpdateAliasWithContext` calls have
      been made so far (the bootstrap included). */
  datatype UpdaterState<IP> = UpdaterState(previous: IP, calls: nat)

  /** One received address: nothing happens when it equals the baseline; otherwise the alias is
      updated once, and the baseline becomes the address the update returned, or stays when the
      update failed. */
  function UpdateStep<IP>(s: UpdaterState<IP>, latest: IP, equal: (IP, IP) -> bool,
                          updates: nat -> Reply<IP>): (r: UpdaterState<IP>)
    ensures equal(latest, s.previous) ==> r == s
    ensures !equal(latest, s.previous) ==> r.calls == s.calls + 1
    ensures !equal(latest, s.previous) && updates(s.calls).Got? ==> r.previous == updates(s.calls).ip
    ensures !equal(latest, s.previous) && updates(s.calls).Failed? ==> r.previous == s.previous
  {
    if equal(latest, s.previous) then s
    else match updates(s.calls)
      case Got(aliasIP) => UpdaterState(aliasIP, s.calls + 1)
      case Failed(_) => UpdaterState(s.previous, s.calls + 1)
  }

  /** The updater after it has received `ips` in order. */
  function UpdaterRun<IP>(s: UpdaterState<IP>, ips: seq<IP>, equal: (IP, IP) -> bool,
                          updates: nat -> Reply<IP>): UpdaterState<IP>
  {
    if ips == [] then s
    else UpdateStep(UpdaterRun(s, ips[..|ips| - 1], equal, updates), ips[|ips| - 1], equal, updates)
  }

  /** `updateDNS`: the receive loop reassigning `previousIP`. */
  method UpdateDNS<IP>(startIP: IP, firstCall: nat, latestIPs: seq<IP>, equal: (IP, IP) -> bool,
                       updates: nat -> Reply<IP>)
    returns (previousIP: IP, calls: nat)
    ensures UpdaterState(previousIP, calls) == UpdaterRun(UpdaterState(startIP, firstCall), latestIPs, equal, updates)
  {
    previousIP, calls := startIP, firstCall;
    var i := 0;
    while i < |latestIPs|
      invariant i <= |latestIPs|
      invariant UpdaterState(previousIP, calls)
                == UpdaterRun(UpdaterState(startIP, firstCall), latestIPs[..i], equal, updates)
    {
      var latestIP := latestIPs[i];
      assert latestIPs[..i + 1][..i] == latestIPs[..i];
      if !equal(latestIP, previousIP) {
        var aliasIP := updates(calls);
        calls := calls + 1;
        if aliasIP.Got? {
          previousIP := aliasIP.ip;
        }
      }
      i := i + 1;
    }
    assert latestIPs[..i] == latestIPs;
  }

  /** Each received address leads to at most one update call. */
  lemma {:induction false} CallsBounded<IP>(s: UpdaterState<IP>, ips: seq<IP>, equal: (IP, IP) -> bool,
                                            updates: nat -> Reply<IP>)
    ensures s.calls <= UpdaterRun(s, ips, equal, updates).calls <= s.calls + |ips|
  {
    if ips != [] {
      CallsBounded(s, ips[..|ips| - 1], equal, updates);
    }
  }

  /** The baseline is always the starting one or an address an update call returned. */
  lemma {:induction false} BaselineConfirmed<IP>(s: UpdaterState<IP>, ips: seq<IP>, equal: (IP, IP) -> bool,
                                                 updates: nat -> Reply<IP>)
    ensures var r := UpdaterRun(s, ips, equal, updates);
            r.previous == s.previous || exists k :: s.calls <= k < r.calls && updates(k) == Got(r.previous)
  {
    if ips != [] {
      BaselineConfirmed(s, ips[..|ips| - 1], equal, updates);
      CallsBounded(s, ips[..|ips| - 1], equal, updates);
    }
  }

  /** No update call is made iff every received address equals the starting baseline. */
  lemma {:induction false} NoUpdateIffUnchanged<IP>(s: UpdaterState<IP>, ips: seq<IP>, equal: (IP, IP) -> bool,
                                                    updates: nat -> Reply<IP>)
    ensures UpdaterRun(s, ips, equal, updates).calls == s.calls
            <==> forall i :: 0 <= i < |ips| ==> equal(ips[i], s.previous)
  {
    if ips != [] {
      var init := ips[..|ips| - 1];
      NoUpdateIffUnchanged(s, init, equal, updates);
      CallsBounded(s, init, equal, updates);
      var mid := UpdaterRun(s, init, equal, updates);
      if mid.calls == s.calls {
        NoCallKeepsBaseline(s, init, equal, updates);
      }
      assert forall i :: 0 <= i < |init| ==> init[i] == ips[i];
    }
  }

  /** Without an update call the baseline cannot have moved. */
  lemma {:induction false} NoCallKeepsBaseline<IP>(s: UpdaterState<IP>, ips: seq<IP>, equal: (IP, IP) -> bool,
                                                   updates: nat -> Reply<IP>)
    requires UpdaterRun(s, ips, equal, updates).calls == s.calls
    ensures UpdaterRun(s, ips, equal, updates) == s
  {
    if ips != [] {
      CallsBounded(s, ips[..|ips| - 1], equal, updates);
      NoCallKeepsBaseline(s, ips[..|ips| - 1], equal, updates);
    }
  }

  /** A failed update leaves the baseline, so the same differing address received again is
      updated again. */
  lemma RetryAfterFailedUpdate<IP>(s: UpdaterState<IP>, latest: IP, equal: (IP, IP) -> bool,
                                   updates: nat -> Reply<IP>)
    requires !equal(latest, s.previous) && updates(s.calls).Failed?
    ensures var once := UpdateStep(s, latest, equal, updates);
            once.previous == s.previous && UpdateStep(once, latest, equal, updates).calls == s.calls + 2
  {
  }

  /** What `Run` leads to. */
  datatype Report<IP> = Report(err: Option<Error>, fetches: nat, updateCalls: nat, baseline: Option<IP>)

  /** `Run`: a bootstrap `UpdateAliasWithContext`; when it fails the agent does not start and the
      error wraps the client's. Otherwise the poller fetches once per tick until cancellation and
      the updater starts from the bootstrap address; when `lastPending` holds, the last address
      sent was still in the channel at cancellation and is never received. */
  method Run<IP>(polls: seq<Reply<IP>>, updates: nat -> Reply<IP>, equal: (IP, IP) -> bool, lastPending: bool)
    returns (report: Report<IP>)
    ensures updates(0).Failed? ==>
              report == Report(Some(Wrapped("failed to start agent", updates(0).err)), 0, 1, None)
    ensures updates(0).Got? ==>
              var sent := Forwarded(polls);
              var received := if lastPending && sent != [] then sent[..|sent| - 1] else sent;
              var final := UpdaterRun(UpdaterState(updates(0).ip, 1), received, equal, updates);
              report == Report(None, |polls|, final.calls, Some(final.previous))
  {
    var startIP := updates(0);
    if startIP.Failed? {
      return Report(Some(Wrapped("failed to start agent", startIP.err)), 0, 1, None);
    }
    var sent, fetches := PollIP(polls);
    var received := sent;
    if lastPending && sent != [] {
      received := sent[..|sent| - 1];
    }
    var previousIP, calls := UpdateDNS(startIP.ip, 1, received, equal, updates);
    report := Report(None, fetches, calls, Some(previousIP));
  }

  /** A failed start-up reports an error that `errors.Is` matches against everything the client's
      error matches, cancellation in particular. */
  lemma {:induction false} StartupErrorWraps(clientErr: Error, target: Error)
    requires Is(clientErr, target)
    ensures Is(Wrapped("failed to start agent", clientErr), target)
  {
  }

  /** The agent's table-driven run: bootstrap 1.2.3.4; fetches 1.2.3.4, 9.8.7.6, 9.8.7.6, an
      error, 2.3.4.5, 2.3.4.5; updates answer 9.8.7.6, then an error, then 2.3.4.5. Addresses are
      written as numbers. */
  lemma ScenarioOfAgentRun()
    ensures var updates := (k: nat) => if k == 0 then Got(1234) else if k == 1 then Got(9876)
                                       else if k == 2 then Failed(Message("alias update error")) else Got(2345);
            var polls := [Got(1234), Got(9876), Got(9876), Failed(Message("ip fetch error")), Got(2345), Got(2345)];
            var sent := Forwarded(polls);
            sent == [1234, 9876, 9876, 2345, 2345]
            && UpdaterRun(UpdaterState(1234, 1), sent, (a: int, b: int) => a == b, updates) == UpdaterState(2345, 4)
  {
    var updates := (k: nat) => if k == 0 then Got(1234) else if k == 1 then Got(9876)
                               else if k == 2 then Failed(Message("alias update error")) else Got(2345);
    var polls := [Got(1234), Got(9876), Got(9876), Failed(Message("ip fetch error")), Got(2345), Got(2345)];
    var equal := (a: int, b: int) => a == b;
    var sent := [1234, 9876, 9876, 2345, 2345];
    assert Forwarded(polls[..1]) == [1234];
    assert polls[..2][..1] == polls[..1];
    assert Forwarded(polls[..2]) == [1234, 9876];
    assert polls[..3][..2] == polls[..2];
    assert Forwarded(polls[..3]) == [1234, 9876, 9876];
    assert polls[..4][..3] == polls[..3];
    assert Forwarded(polls[..4]) == [1234, 9876, 9876];
    assert polls[..5][..4] == polls[..4];
    assert Forwarded(polls[..5]) == [1234, 9876, 9876, 2345];
    assert polls[..6] == polls && polls[..6][..5] == polls[..5];
    assert Forwarded(polls) == sent;
    var s0 := UpdaterState(1234, 1);
    assert UpdaterRun(s0, sent[..1], equal, updates) == s0;
    assert sent[..2][..1] == sent[..1];
    assert UpdaterRun(s0, sent[..2], equal, updates) == UpdaterState(9876, 2);
    assert sent[..3][..2] == sent[..2];
    assert UpdaterRun(s0, sent[..3], equal, updates) == UpdaterState(9876, 2);
    assert sent[..4][..3] == sent[..3];
    assert UpdaterRun(s0, sent[..4], equal, updates) == UpdaterState(9876, 3);
    assert sent[..5] == sent && sent[..5][..4] == sent[..4];
  }
}

/** Bringing up the EC2 workers of a test run: launching with back-off, waiting until all instances run,
    and sweeping their SSH ports. EC2 and the network answer as functions of the attempt. */
module Workers {
  import opened Common

  const WORKER_BOOTUP_TIMEOUT_MINUTES := 10
  const WORKER_SSH_ATTEMPTS := 10
  const MAX_RUN_WORKER_RETRIES := 7

  datatype Info = Info(id: string, running: bool, ip: string)

  // ---------- Launching ----------

  /** The ids of the first attempt that is not throttled, having slept 2 + 4 + ... before it. */
  method LaunchWorkers(launch: nat -> Option<seq<string>>) returns (ids: Option<seq<string>>, slept: nat)
    ensures ids.None? <==> forall r :: 1 <= r <= MAX_RUN_WORKER_RETRIES ==> launch(r).None?
    ensures ids.Some? ==>
              exists r :: 1 <= r <= MAX_RUN_WORKER_RETRIES && launch(r) == ids && slept == Pow2(r) - 2 &&
                          forall q :: 1 <= q < r ==> launch(q).None?
    ensures slept <= 126
  {
    slept := 0;
    ids := None;
    for retry := 1 to MAX_RUN_WORKER_RETRIES + 1
      invariant forall q :: 1 <= q < retry ==> launch(q).None?
      invariant slept == Pow2(if retry <= MAX_RUN_WORKER_RETRIES then retry else MAX_RUN_WORKER_RETRIES) - 2
    {
      Pow2Grows(retry, MAX_RUN_WORKER_RETRIES);
      var response := launch(retry);
      if response.Some? {
        return response, slept;
      }
      if retry == MAX_RUN_WORKER_RETRIES {
        return;
      }
      slept := slept + Pow2(retry);
    }
    Pow2Grows(MAX_RUN_WORKER_RETRIES, MAX_RUN_WORKER_RETRIES);
  }

  lemma {:induction false} Pow2Grows(a: nat, b: nat)
    requires a <= b
    ensures Pow2(a) <= Pow2(b)
    ensures b == 7 ==> Pow2(b) == 128
    decreases b
  {
    if a < b {
      Pow2Grows(a, b - 1);
    }
    assert Pow2(2) == 4;
    assert Pow2(4) == 16;
    assert Pow2(6) == 64;
  }

  // ---------- Waiting until all run ----------

  function All(reservations: seq<seq<Info>>): seq<Info> {
    if reservations == [] then [] else All(reservations[..|reservations| - 1]) + reservations[|reservations| - 1]
  }

  function Ids(infos: seq<Info>): (ids: seq<string>)
    ensures |ids| == |infos| && forall i :: 0 <= i < |infos| ==> ids[i] == infos[i].id
  {
    seq(|infos|, i requires 0 <= i < |infos| => infos[i].id)
  }

  function Ips(infos: seq<Info>): (ips: seq<string>)
    ensures |ips| == |infos| && forall i :: 0 <= i < |infos| ==> ips[i] == infos[i].ip
  {
    seq(|infos|, i requires 0 <= i < |infos| => infos[i].ip)
  }

  function Running(infos: seq<Info>): seq<Info> {
    if infos == [] then []
    else Running(infos[..|infos| - 1]) + if infos[|infos| - 1].running then [infos[|infos| - 1]] else []
  }

  function Pending(infos: seq<Info>): seq<Info> {
    if infos == [] then []
    else Pending(infos[..|infos| - 1]) + if infos[|infos| - 1].running then [] else [infos[|infos| - 1]]
  }

  type Ec2 = (nat, seq<string>) -> Option<seq<seq<Info>>>

  datatype Watch = Watch(seen: seq<Info>, waiting: seq<string>)

  /** What the first k polls have seen running, and the ids that the next poll asks for. A poll that
      raised changes nothing. */
  function Watched(describe: Ec2, ids: seq<string>, k: nat): Watch {
    if k == 0 then Watch([], ids)
    else
      var w := Watched(describe, ids, k - 1);
      match describe(k - 1, w.waiting)
      case None => w
      case Some(reservations) =>
        Watch(w.seen + Running(All(reservations)), Ids(Pending(All(reservations))))
  }

  /** The k-th poll was answered and left nothing to wait for. */
  predicate Finished(describe: Ec2, ids: seq<string>, k: nat) {
    k > 0 && describe(k - 1, Watched(describe, ids, k - 1).waiting).Some? &&
    Watched(describe, ids, k).waiting == []
  }

  /** EC2 describes exactly the instances asked for, each once, in any order and grouping. */
  ghost predicate Exact(describe: Ec2) {
    forall k, ids :: describe(k, ids).Some? ==> multiset(Ids(All(describe(k, ids).value))) == multiset(ids)
  }

  /** After every poll, also one that raised, the ids seen running and those still asked for are together
      exactly the launched ids, each as often as it was launched. */
  lemma {:induction false} PollsConserve(describe: Ec2, ids: seq<string>, k: nat)
    requires Exact(describe)
    ensures var w := Watched(describe, ids, k);
            && multiset(Ids(w.seen)) + multiset(w.waiting) == multiset(ids)
            && forall info :: info in w.seen ==> info.running
  {
    hide Running, Pending, All, Ids;
    if k == 0 {
      NobodySeen();
    } else {
      PollsConserve(describe, ids, k - 1);
      var w := Watched(describe, ids, k - 1);
      var response := describe(k - 1, w.waiting);
      if response.Some? {
        var infos := All(response.value);
        RunningAndPending(infos);
        RunningRun(infos);
        IdsConcat(w.seen, Running(infos));
      }
    }
  }

  /** A description holds the instances of its reservations, one reservation after the other. */
  lemma {:induction false} AllConcat(a: seq<seq<Info>>, b: seq<seq<Info>>)
    ensures All(a + b) == All(a) + All(b)
    ensures forall instances :: All([instances]) == instances
    decreases |b|
  {
    forall instances: seq<Info> ensures All([instances]) == instances {
      assert [instances][..0] == [] && [] + instances == instances;
    }
    if b == [] {
      assert a + b == a && All(a) + [] == All(a);
    } else {
      var n := |b| - 1;
      AllConcat(a, b[..n]);
      assert (a + b)[..|a + b| - 1] == a + b[..n] && (a + b)[|a + b| - 1] == b[n];
    }
  }

  /** An answered poll sees exactly the described instances that run, in order, and waits for the ids of exactly
      the others. */
  lemma {:induction false} RunningIsExact(infos: seq<Info>)
    ensures Subsequence(Running(infos), infos) && Subsequence(Pending(infos), infos)
    ensures forall info :: info in Running(infos) ==> info.running
    ensures forall info :: info in Pending(infos) ==> !info.running
    ensures multiset(Running(infos)) + multiset(Pending(infos)) == multiset(infos)
  {
    hide Subsequence;
    if infos == [] {
      SubsequenceOfItself(infos);
    } else {
      var n := |infos| - 1;
      RunningIsExact(infos[..n]);
      SubsequenceSnoc(Running(infos[..n]), infos);
      SubsequenceSnoc(Pending(infos[..n]), infos);
      assert infos == infos[..n] + [infos[n]];
    }
  }

  /** A poll finishes the waiting exactly when it is answered and all instances it describes run. */
  lemma FinishedIff(describe: Ec2, ids: seq<string>, k: nat)
    ensures Finished(describe, ids, k + 1) <==>
              var response := describe(k, Watched(describe, ids, k).waiting);
              response.Some? && forall info :: info in All(response.value) ==> info.running
  {
    hide Watched, All, Running, Pending;
    var response := describe(k, Watched(describe, ids, k).waiting);
    WatchedNext(describe, ids, k);
    if response.Some? {
      var infos := All(response.value);
      RunningIsExact(infos);
      forall info | info in infos ensures info.running || info in Pending(infos) {
        assert info in multiset(infos);
      }
      if Pending(infos) != [] {
        assert Pending(infos)[0] in multiset(infos);
      }
    }
  }

  lemma WatchedNext(describe: Ec2, ids: seq<string>, k: nat)
    ensures var w, next := Watched(describe, ids, k), Watched(describe, ids, k + 1);
            var response := describe(k, w.waiting);
            next == if response.None? then w
                    else Watch(w.seen + Running(All(response.value)), Ids(Pending(All(response.value))))
  {
  }

  lemma NobodySeen()
    ensures Ids([]) == [] && Ips([]) == []
  {
  }

  lemma IdsConcat(a: seq<Info>, b: seq<Info>)
    ensures Ids(a + b) == Ids(a) + Ids(b) && Ips(a + b) == Ips(a) + Ips(b)
  {
  }

  /** One more description sorts its instance to one side. */
  lemma Sorted(infos: seq<Info>, n: nat)
    requires n < |infos|
    ensures var was, now, info := infos[..n], infos[..n + 1], infos[n];
            && Ids(now) == Ids(was) + [info.id]
            && Ips(Running(now)) == Ips(Running(was)) + (if info.running then [info.ip] else [])
            && Ids(Running(now)) == Ids(Running(was)) + (if info.running then [info.id] else [])
            && Ids(Pending(now)) == Ids(Pending(was)) + (if info.running then [] else [info.id])
  {
    hide Ids, Ips;
    var was, now, info := infos[..n], infos[..n + 1], infos[n];
    assert now[..n] == was && now == was + [info];
    Singleton(info);
    IdsConcat(was, [info]);
    if info.running {
      IdsConcat(Running(was), [info]);
      assert Running(now) == Running(was) + [info];
      assert Pending(now) == Pending(was);
      assert Ids(Pending(was)) + [] == Ids(Pending(was));
    } else {
      IdsConcat(Pending(was), [info]);
      assert Pending(now) == Pending(was) + [info];
      assert Running(now) == Running(was);
      assert Ids(Running(was)) + [] == Ids(Running(was));
      assert Ips(Running(was)) + [] == Ips(Running(was));
    }
  }

  lemma {:induction false} RunningAndPending(infos: seq<Info>)
    ensures multiset(Ids(Running(infos))) + multiset(Ids(Pending(infos))) == multiset(Ids(infos))
  {
    if infos != [] {
      var n := |infos| - 1;
      RunningAndPending(infos[..n]);
      Sorted(infos, n);
      hide Ids, Running, Pending;
      assert infos[..n + 1] == infos;
    }
  }

  lemma {:induction false} RunningRun(infos: seq<Info>)
    ensures forall info :: info in Running(infos) ==> info.running
  {
    if infos != [] {
      RunningRun(infos[..|infos| - 1]);
    }
  }

  /** One reservation of a description read: IPs of running instances are collected, ids of the others. */
  method ReadInstances(instances: seq<Info>, ips: seq<string>, notRunning: seq<string>)
      returns (ips': seq<string>, notRunning': seq<string>)
    ensures ips' == ips + Ips(Running(instances))
    ensures notRunning' == notRunning + Ids(Pending(instances))
  {
    hide Ids, Ips, Running, Pending;
    NoneIn();
    ips', notRunning' := ips, notRunning;
    for i := 0 to |instances|
      invariant ips' == ips + Ips(Running(instances[..i]))
      invariant notRunning' == notRunning + Ids(Pending(instances[..i]))
    {
      var info := instances[i];
      Sorted(instances, i);
      if info.running {
        ips' := ips' + [info.ip];
      } else {
        notRunning' := notRunning' + [info.id];
      }
    }
    assert instances[..|instances|] == instances;
  }

  lemma Singleton(info: Info)
    ensures Ids([info]) == [info.id] && Ips([info]) == [info.ip]
  {
  }

  lemma {:induction false} RunningConcat(a: seq<Info>, b: seq<Info>)
    ensures Running(a + b) == Running(a) + Running(b)
    ensures Pending(a + b) == Pending(a) + Pending(b)
    decreases |b|
  {
    if b == [] {
      assert a + b == a;
    } else {
      var n := |b| - 1;
      RunningConcat(a, b[..n]);
      assert (a + b)[..|a + b| - 1] == a + b[..n] && (a + b)[|a + b| - 1] == b[n];
    }
  }

  /** A whole description read. */
  method ReadPoll(reservations: seq<seq<Info>>, ips: seq<string>) returns (ips': seq<string>, notRunning: seq<string>)
    ensures ips' == ips + Ips(Running(All(reservations)))
    ensures notRunning == Ids(Pending(All(reservations)))
  {
    hide Ids, Ips, Running, Pending;
    ips', notRunning := ips, [];
    NoneIn();
    for r := 0 to |reservations|
      invariant ips' == ips + Ips(Running(All(reservations[..r])))
      invariant notRunning == Ids(Pending(All(reservations[..r])))
    {
      ghost var before := All(reservations[..r]);
      assert reservations[..r + 1][..r] == reservations[..r];
      ips', notRunning := ReadInstances(reservations[r], ips', notRunning);
      RunningConcat(before, reservations[r]);
      IdsConcat(Running(before), Running(reservations[r]));
      IdsConcat(Pending(before), Pending(reservations[r]));
    }
    assert reservations[..|reservations|] == reservations;
  }

  lemma NoneIn()
    ensures Ips(Running([])) == [] && Ids(Pending([])) == []
  {
  }

  /** Polls until a poll leaves nothing to wait for, 120 times at most. */
  method AwaitRunning(describe: Ec2, ids: seq<string>)
      returns (ok: bool, ips: seq<string>, slept: nat, ghost polls: nat)
    ensures 1 <= polls <= 120 && ips == Ips(Watched(describe, ids, polls).seen)
    ensures forall k :: 1 <= k < polls ==> !Finished(describe, ids, k)
    ensures ok <==> Finished(describe, ids, polls)
    ensures !ok ==> polls == 120
    ensures slept <= if ok then 595 else 600
  {
    hide Running, Pending, All, Ids, Ips;
    var waiting := ids;
    ips, slept, ok := [], 0, false;
    NobodySeen();
    for attempt := 0 to WORKER_BOOTUP_TIMEOUT_MINUTES * 12
      invariant ips == Ips(Watched(describe, ids, attempt).seen)
      invariant waiting == Watched(describe, ids, attempt).waiting
      invariant forall k :: 1 <= k <= attempt ==> !Finished(describe, ids, k)
      invariant slept <= 5 * attempt
    {
      var response := describe(attempt, waiting);
      if response.None? {
        continue;
      }
      IdsConcat(Watched(describe, ids, attempt).seen, Running(All(response.value)));
      ips, waiting := ReadPoll(response.value, ips);
      if |waiting| > 0 {
        slept := slept + 5;
      } else {
        return true, ips, slept, attempt + 1;
      }
    }
    polls := WORKER_BOOTUP_TIMEOUT_MINUTES * 12;
  }

  // ---------- Sweeping the SSH ports ----------

  /** The IPs whose check did not return 0, in order. */
  function Unready(ips: seq<string>, results: seq<int>): seq<string>
    requires |ips| == |results|
  {
    if ips == [] then []
    else
      var n := |ips| - 1;
      Unready(ips[..n], results[..n]) + if results[n] == 0 then [] else [ips[n]]
  }

  /** Deleting while counting the deletions leaves exactly the unready IPs, in order. */
  method DeleteReady(ips: seq<string>, results: seq<int>) returns (notReady: seq<string>)
    requires |ips| == |results|
    ensures notReady == Unready(ips, results)
  {
    hide Unready;
    notReady := ips;
    var deleted := 0;
    ghost var kept: seq<string> := [];
    NothingChecked();
    assert ips[..0] == [] && results[..0] == [] && kept + ips[0..] == ips;
    for num := 0 to |results|
      invariant deleted <= num && num - deleted == |kept|
      invariant kept == Unready(ips[..num], results[..num]) && notReady == kept + ips[num..]
    {
      UnreadySnoc(ips, results, num);
      Deletion(kept, ips, num);
      if results[num] == 0 {
        notReady := notReady[..num - deleted] + notReady[num - deleted + 1..];
        deleted := deleted + 1;
        assert kept + [] == kept;
      } else {
        kept := kept + [ips[num]];
      }
    }
    assert ips[..|ips|] == ips && results[..|ips|] == results && ips[|ips|..] == [];
  }

  lemma NothingChecked()
    ensures Unready([], []) == []
  {
  }

  lemma UnreadySnoc(ips: seq<string>, results: seq<int>, n: nat)
    requires n < |ips| == |results|
    ensures Unready(ips[..n + 1], results[..n + 1]) ==
            Unready(ips[..n], results[..n]) + if results[n] == 0 then [] else [ips[n]]
  {
    assert ips[..n + 1][..n] == ips[..n] && results[..n + 1][..n] == results[..n];
  }

  lemma Deletion(kept: seq<string>, ips: seq<string>, n: nat)
    requires n < |ips|
    ensures var list := kept + ips[n..];
            && list[..|kept|] + list[|kept| + 1..] == kept + ips[n + 1..]
            && list == kept + [ips[n]] + ips[n + 1..]
  {
  }

  type Network = (nat, nat, string) -> int

  /** The results of sweep k, position by position. */
  function Results(check: Network, k: nat, ips: seq<string>): (r: seq<int>)
    ensures |r| == |ips| && forall p :: 0 <= p < |ips| ==> r[p] == check(k, p, ips[p])
  {
    seq(|ips|, p requires 0 <= p < |ips| => check(k, p, ips[p]))
  }

  /** The IPs left after the first k sweeps. */
  function Left(check: Network, ips: seq<string>, k: nat): seq<string> {
    if k == 0 then ips
    else
      var before := Left(check, ips, k - 1);
      Unready(before, Results(check, k - 1, before))
  }

  /** Sweep k found the SSH port of `ip` open. */
  ghost predicate ReachedIn(check: Network, k: nat, ip: string) {
    exists p: nat :: check(k, p, ip) == 0
  }

  ghost predicate Reached(check: Network, sweeps: nat, ip: string) {
    exists k: nat :: k < sweeps && ReachedIn(check, k, ip)
  }

  /** An IP that is no longer checked was reachable once, and one that is still checked is one of ours. */
  lemma {:induction false} SweepsReach(check: Network, ips: seq<string>, k: nat)
    ensures forall ip :: ip in ips ==> ip in Left(check, ips, k) || Reached(check, k, ip)
    ensures Subsequence(Left(check, ips, k), ips)
  {
    hide Unready, Results, Reached, ReachedIn, Subsequence;
    if k == 0 {
      SubsequenceOfItself(ips);
    } else {
      SweepsReach(check, ips, k - 1);
      var before := Left(check, ips, k - 1);
      UnreadySelects(before, Results(check, k - 1, before));
      SubsequenceTransitive(Left(check, ips, k), before, ips);
      forall ip | ip in ips ensures ip in Left(check, ips, k) || Reached(check, k, ip) {
        if ip in before {
          SweptAway(check, k - 1, before, ip);
        } else {
          ReachedLater(check, k - 1, ip);
        }
      }
    }
  }

  /** A sweep keeps exactly the IPs whose check failed, in order. */
  lemma {:induction false} UnreadyIsExact(ips: seq<string>, results: seq<int>) returns (at: seq<nat>)
    requires |ips| == |results|
    ensures Selects(at, ips, Unready(ips, results))
    ensures forall p: nat :: p in at <==> p < |ips| && results[p] != 0
  {
    at := [];
    if ips != [] {
      var n := |ips| - 1;
      at := UnreadyIsExact(ips[..n], results[..n]);
      forall p: nat ensures p in at <==> p < n && results[p] != 0 {
        assert p < n ==> results[..n][p] == results[p];
      }
      SelectsLonger(at, ips, Unready(ips[..n], results[..n]));
      if results[n] != 0 {
        at := at + [n];
      }
    }
  }

  lemma SelectsLonger(at: seq<nat>, s: seq<string>, t: seq<string>)
    requires s != [] && Selects(at, s[..|s| - 1], t)
    ensures Selects(at, s, t + []) && Selects(at + [|s| - 1], s, t + [s[|s| - 1]])
  {
    assert t + [] == t;
  }

  lemma {:induction false} UnreadySelects(ips: seq<string>, results: seq<int>)
    requires |ips| == |results|
    ensures Subsequence(Unready(ips, results), ips)
  {
    hide Subsequence;
    if ips == [] {
      SubsequenceOfItself(ips);
    } else {
      var n := |ips| - 1;
      UnreadySelects(ips[..n], results[..n]);
      SubsequenceSnoc(Unready(ips[..n], results[..n]), ips);
    }
  }

  lemma {:induction false} FailedStays(ips: seq<string>, results: seq<int>, p: nat)
    requires p < |ips| == |results| && results[p] != 0
    ensures ips[p] in Unready(ips, results)
  {
    var n := |ips| - 1;
    if p < n {
      FailedStays(ips[..n], results[..n], p);
    }
  }

  lemma SweptAway(check: Network, k: nat, before: seq<string>, ip: string)
    requires ip in before
    ensures ip in Unready(before, Results(check, k, before)) || Reached(check, k + 1, ip)
  {
    hide Unready;
    var p :| 0 <= p < |before| && before[p] == ip;
    var results := Results(check, k, before);
    if results[p] == 0 {
      assert check(k, p, ip) == 0;
      assert ReachedIn(check, k, ip);
    } else {
      FailedStays(before, results, p);
    }
  }

  lemma ReachedLater(check: Network, k: nat, ip: string)
    requires Reached(check, k, ip)
    ensures Reached(check, k + 1, ip)
  {
    var j: nat :| j < k && ReachedIn(check, j, ip);
    assert j < k + 1;
  }

  /** Sweeps until no IP is left, ten times at most. */
  method AwaitSsh(check: Network, ips: seq<string>) returns (ok: bool, slept: nat, sweeps: nat)
    ensures 1 <= sweeps <= WORKER_SSH_ATTEMPTS && slept == 5 * (sweeps - 1)
    ensures forall k :: 1 <= k < sweeps ==> Left(check, ips, k) != []
    ensures ok <==> Left(check, ips, sweeps) == []
    ensures !ok ==> sweeps == WORKER_SSH_ATTEMPTS
  {
    hide Unready;
    var notReady := ips;
    slept, sweeps := 0, 0;
    while sweeps < WORKER_SSH_ATTEMPTS
      invariant sweeps < WORKER_SSH_ATTEMPTS && slept == 5 * sweeps
      invariant notReady == Left(check, ips, sweeps)
      invariant forall k :: 1 <= k <= sweeps ==> Left(check, ips, k) != []
      decreases WORKER_SSH_ATTEMPTS - sweeps
    {
      var results := Results(check, sweeps, notReady);
      notReady := DeleteReady(notReady, results);
      sweeps := sweeps + 1;
      if |notReady| == 0 {
        return true, slept, sweeps;
      }
      if sweeps == WORKER_SSH_ATTEMPTS {
        return false, slept, sweeps;
      }
      slept := slept + 5;
    }
    ok := false;
  }

  // ---------- The whole bring-up ----------

  datatype Outcome = Throttled | NotRunning | NotReachable | Spun(ipFile: string, idFile: string)

  ghost predicate LaunchedAs(launch: nat -> Option<seq<string>>, ids: seq<string>) {
    exists r :: 1 <= r <= MAX_RUN_WORKER_RETRIES && launch(r) == Some(ids) && forall q :: 1 <= q < r ==> launch(q).None?
  }

  ghost predicate FinishedFirst(describe: Ec2, ids: seq<string>, polls: nat) {
    1 <= polls <= 120 && Finished(describe, ids, polls) && forall k :: 1 <= k < polls ==> !Finished(describe, ids, k)
  }

  /** Launches, waits and sweeps, then writes the two files. Each outcome has its own cause, and the three
      phases never sleep for more than 766 seconds together. */
  method SpinUpWorkers(launch: nat -> Option<seq<string>>, describe: Ec2, check: Network)
      returns (outcome: Outcome, slept: nat, ghost ids: seq<string>, ghost polls: nat)
    ensures outcome.Throttled? <==> forall r :: 1 <= r <= MAX_RUN_WORKER_RETRIES ==> launch(r).None?
    ensures !outcome.Throttled? ==> LaunchedAs(launch, ids)
    ensures outcome.NotRunning? ==> forall k :: 1 <= k <= 120 ==> !Finished(describe, ids, k)
    ensures outcome.NotReachable? || outcome.Spun? ==> FinishedFirst(describe, ids, polls)
    ensures outcome.NotReachable? ==>
              forall k :: 1 <= k <= WORKER_SSH_ATTEMPTS ==>
                Left(check, Ips(Watched(describe, ids, polls).seen), k) != []
    ensures outcome.Spun? ==>
              && (exists k :: 1 <= k <= WORKER_SSH_ATTEMPTS &&
                              Left(check, Ips(Watched(describe, ids, polls).seen), k) == [])
              && outcome.ipFile == Join(Ips(Watched(describe, ids, polls).seen), ",")
              && outcome.idFile == Join(ids, ",")
    ensures slept <= 766
  {
    hide Watched, Finished, Left, Ips, Join;
    ids, polls := [], 0;
    var launched, first := LaunchWorkers(launch);
    if launched.None? {
      return Throttled, first, ids, polls;
    }
    ids := launched.value;
    var running, ips, second, polled := AwaitRunning(describe, launched.value);
    polls := polled;
    if !running {
      return NotRunning, first + second, ids, polls;
    }
    var ready, third, sweeps := AwaitSsh(check, ips);
    slept := first + second + third;
    outcome := if ready then Spun(Join(ips, ","), Join(launched.value, ",")) else NotReachable;
  }

  /** What success means: the IP file lists one address for each launched instance, all of them seen
      running and all of them once reachable on their SSH port. */
  lemma SpunWorkersAreReady(describe: Ec2, check: Network, ids: seq<string>, polls: nat, sweeps: nat)
    requires Exact(describe) && FinishedFirst(describe, ids, polls)
    requires Left(check, Ips(Watched(describe, ids, polls).seen), sweeps) == []
    ensures var seen := Watched(describe, ids, polls).seen;
            && multiset(Ids(seen)) == multiset(ids)
            && |Ips(seen)| == |ids|
            && (forall info :: info in seen ==> info.running)
            && (forall info :: info in seen ==> Reached(check, sweeps, info.ip))
  {
    hide Watched, Left, Exact, Reached;
    PollsConserve(describe, ids, polls);
    var seen := Watched(describe, ids, polls).seen;
    SweepsReach(check, Ips(seen), sweeps);
    forall info | info in seen ensures Reached(check, sweeps, info.ip) {
      var i :| 0 <= i < |seen| && seen[i] == info;
      assert Ips(seen)[i] in Ips(seen);
    }
    SameSize(Ids(seen), ids);
  }

  lemma SameSize(a: seq<string>, b: seq<string>)
    requires multiset(a) == multiset(b)
    ensures |a| == |b|
  {
    assert |multiset(a)| == |a| && |multiset(b)| == |b|;
  }

  /** Terminating from the id file stops exactly the launched instances: splitting the file's line gives
      the ids back if and only if there are any and none holds a comma. */
  lemma TerminateFindsTheLaunched(ids: seq<string>)
    ensures Split(Join(ids, ","), ",") == ids <==> ids != [] && forall id :: id in ids ==> ',' !in id
  {
    if ids != [] && forall id :: id in ids ==> ',' !in id {
      SplitUndoesJoin(ids, ',');
    }
    PartsHoldNone(Join(ids, ","), ',');
  }
}

/** The containers under the controller, and the functions that say what starting and
    stopping them does. Every call to the container runtime is one tick; an arbitrary
    environment decides for each tick whether the call succeeds, fails without effect, or
    reports failure although it took effect. The goroutines of one batch are numbered in
    the order of their ticks, so an arbitrary environment also covers every schedule. */
module Runtime {
  import opened Domain

  datatype Effect = Done | Failed(tookEffect: bool)

  datatype Env = Env(effect: nat -> Effect) {
    predicate Ok(i: nat) { effect(i).Done? }
    predicate Acts(i: nat) { effect(i) != Failed(false) }
  }

  datatype World = World(running: map<ContainerName, Labels>, tick: nat)

  datatype Result = Result(world: World, ok: bool)

  /** Container names carry a unique suffix: no later start repeats a name in use. */
  ghost predicate FreshNames(w: World) {
    forall k | k in w.running :: k.serial < w.tick
  }

  ghost predicate NeverFails(env: Env) {
    forall i: nat :: env.Ok(i)
  }

  /** The calls in `[from, from + n)` that reported an error. */
  function Failures(env: Env, from: nat, n: nat): nat {
    if n == 0 then 0
    else Failures(env, from, n - 1) + (if env.Ok(from + n - 1) then 0 else 1)
  }

  lemma {:induction false} FailuresSplit(env: Env, from: nat, m: nat, n: nat)
    ensures Failures(env, from, m + n) == Failures(env, from, m) + Failures(env, from + m, n)
  {
    if n > 0 {
      FailuresSplit(env, from, m, n - 1);
    }
  }

  lemma {:induction false} FailuresBound(env: Env, from: nat, n: nat)
    ensures Failures(env, from, n) <= n
    ensures NeverFails(env) ==> Failures(env, from, n) == 0
  {
    if n > 0 {
      FailuresBound(env, from, n - 1);
    }
  }

  // ---------- starting ----------

  /** One start of a container of the revision called `name`. */
  function StartOne(env: Env, w: World, name: string, labels: Labels): World {
    World(
      if env.Acts(w.tick) then w.running[ContainerName(name, w.tick) := labels] else w.running,
      w.tick + 1)
  }

  function StartN(env: Env, w: World, name: string, labels: Labels, n: nat): (r: World)
    ensures r.tick == w.tick + n
  {
    if n == 0 then w else StartOne(env, StartN(env, w, name, labels, n - 1), name, labels)
  }

  /** What a doubling start leaves behind: the successes and verdict it returns, the number
      of batches it ran and the size of the last one. */
  datatype Started = Started(world: World, successes: int, ok: bool, batches: nat, last: nat)

  function Min(a: int, b: int): int {
    if a <= b then a else b
  }

  function Max(a: int, b: int): int {
    if a <= b then b else a
  }

  /** One batch of `size` concurrent starts. */
  function StartBatch(env: Env, name: string, labels: Labels, size: nat, s: Started): (r: Started)
    ensures r.world.tick == s.world.tick + size
  {
    var failures := Failures(env, s.world.tick, size);
    Started(StartN(env, s.world, name, labels, size), s.successes + size - failures, failures == 0, s.batches + 1, size)
  }

  /** Batches of doubling size until none remain or one of a batch's starts fails. */
  function StartBatches(env: Env, name: string, labels: Labels, remaining: int, batch: nat, s: Started): Started
    requires batch > 0
    decreases Max(remaining, 0)
  {
    if remaining <= 0 then s
    else
      var size := Min(batch, remaining);
      var s' := StartBatch(env, name, labels, size, s);
      if s'.ok then StartBatches(env, name, labels, remaining - size, 2 * batch, s') else s'
  }

  function StartAll(env: Env, w: World, name: string, labels: Labels, appCount: int): Started {
    StartBatches(env, name, labels, appCount, 1, Started(w, 0, true, 0, 0))
  }

  function Pow2(k: nat): nat {
    if k == 0 then 1 else 2 * Pow2(k - 1)
  }

  /** Ticks `[t0, r.world.tick)` were the attempts of a start that ended as `r`. */
  ghost predicate ExactStart(env: Env, t0: nat, end: int, r: Started) {
    && t0 + r.last <= r.world.tick <= end
    && var attempts := r.world.tick - t0;
    && r.successes == attempts - Failures(env, t0, attempts)
    && (r.ok <==> Failures(env, t0, attempts) == 0)
    && (r.ok ==> r.world.tick == end)
    && (!r.ok ==> Failures(env, t0, attempts - r.last) == 0 && r.last <= attempts - r.last + 1)
  }

  /** For every environment the doubling start attempts no more than asked, reports its
      successes exactly, and succeeds iff nothing failed; when it fails, only its last batch
      had failures, and that batch is at most one larger than all the starts before it. */
  lemma DoublingStartsAreExact(env: Env, w: World, name: string, labels: Labels, appCount: int)
    ensures ExactStart(env, w.tick, w.tick + Max(appCount, 0), StartAll(env, w, name, labels, appCount))
  {
    BatchesFromHere(env, w.tick, name, labels, appCount, 1, Started(w, 0, true, 0, 0));
  }

  lemma {:induction false} BatchesFromHere(env: Env, t0: nat, name: string, labels: Labels,
                                           remaining: int, batch: nat, s: Started)
    requires batch > 0 && s.ok && ExactStart(env, t0, s.world.tick, s)
    requires remaining > 0 ==> batch == s.world.tick - t0 + 1
    ensures ExactStart(env, t0, s.world.tick + Max(remaining, 0), StartBatches(env, name, labels, remaining, batch, s))
    decreases Max(remaining, 0)
  {
    if remaining > 0 {
      var size := Min(batch, remaining);
      var s' := StartBatch(env, name, labels, size, s);
      BatchIsExact(env, t0, name, labels, size, s);
      if s'.ok {
        BatchesFromHere(env, t0, name, labels, remaining - size, 2 * batch, s');
        assert StartBatches(env, name, labels, remaining, batch, s)
            == StartBatches(env, name, labels, remaining - size, 2 * batch, s');
      } else {
        assert StartBatches(env, name, labels, remaining, batch, s) == s';
      }
    }
  }

  lemma BatchIsExact(env: Env, t0: nat, name: string, labels: Labels, size: nat, s: Started)
    requires s.ok && ExactStart(env, t0, s.world.tick, s) && size <= s.world.tick - t0 + 1
    ensures ExactStart(env, t0, s.world.tick + size, StartBatch(env, name, labels, size, s))
  {
    FailuresSplit(env, t0, s.world.tick - t0, size);
  }

  /** A start that succeeds has used the least number k of batches with 2^k - 1 >= appCount. */
  lemma DoublingUsesFewestBatches(env: Env, w: World, name: string, labels: Labels, appCount: int)
    requires appCount > 0 && StartAll(env, w, name, labels, appCount).ok
    ensures var k := StartAll(env, w, name, labels, appCount).batches;
            k > 0 && Pow2(k - 1) - 1 < appCount <= Pow2(k) - 1
  {
    BatchesNeeded(env, name, labels, appCount, 1, Started(w, 0, true, 0, 0));
  }

  lemma {:induction false} BatchesNeeded(env: Env, name: string, labels: Labels,
                                         remaining: int, batch: nat, s: Started)
    requires remaining > 0 && batch == Pow2(s.batches) && batch > 0
    requires StartBatches(env, name, labels, remaining, batch, s).ok
    ensures var k := StartBatches(env, name, labels, remaining, batch, s).batches;
            k > 0 && Pow2(k - 1) - 1 < remaining + batch - 1 <= Pow2(k) - 1
    decreases remaining
  {
    var size := Min(batch, remaining);
    var s' := StartBatch(env, name, labels, size, s);
    if remaining > batch {
      BatchesNeeded(env, name, labels, remaining - size, 2 * batch, s');
    } else {
      assert StartBatches(env, name, labels, remaining, batch, s) == s';
    }
  }

  /** `w'` is `w` with at most `most` more containers, all carrying `labels`. */
  ghost predicate Extends(w: World, w': World, labels: Labels, most: int) {
    && w.tick <= w'.tick
    && (forall k | k in w.running :: k in w'.running && w'.running[k] == w.running[k])
    && (forall k | k in w'.running && k !in w.running :: w'.running[k] == labels && w.tick <= k.serial < w'.tick)
    && |w'.running| <= |w.running| + most
  }

  lemma StartOneExtends(env: Env, w: World, name: string, labels: Labels)
    requires FreshNames(w)
    ensures Extends(w, StartOne(env, w, name, labels), labels, 1) && FreshNames(StartOne(env, w, name, labels))
  {}

  lemma StartOneCount(env: Env, w: World, name: string, labels: Labels)
    requires FreshNames(w) && env.Ok(w.tick)
    ensures |StartOne(env, w, name, labels).running| == |w.running| + 1
  {}

  lemma ExtendsReflexive(w: World, labels: Labels)
    ensures Extends(w, w, labels, 0)
  {}

  lemma ExtendsComposes(w: World, w1: World, w2: World, labels: Labels, m: int, n: int)
    requires Extends(w, w1, labels, m) && Extends(w1, w2, labels, n)
    ensures Extends(w, w2, labels, m + n)
  {
    forall k | k in w2.running && k !in w.running
      ensures w2.running[k] == labels && w.tick <= k.serial < w2.tick
    {
      if k in w1.running {
        assert w2.running[k] == w1.running[k];
      }
    }
  }

  lemma ExtendsWeaker(w: World, w': World, labels: Labels, m: int, n: int)
    requires Extends(w, w', labels, m) && m <= n
    ensures Extends(w, w', labels, n)
  {}

  lemma {:induction false} StartNExtends(env: Env, w: World, name: string, labels: Labels, n: nat)
    requires FreshNames(w)
    ensures Extends(w, StartN(env, w, name, labels, n), labels, n) && FreshNames(StartN(env, w, name, labels, n))
  {
    hide Extends, FreshNames;
    if n == 0 {
      ExtendsReflexive(w, labels);
    } else {
      var w1 := StartN(env, w, name, labels, n - 1);
      StartNExtends(env, w, name, labels, n - 1);
      StartOneExtends(env, w1, name, labels);
      ExtendsComposes(w, w1, StartOne(env, w1, name, labels), labels, n - 1, 1);
    }
  }

  lemma {:induction false} StartNCount(env: Env, w: World, name: string, labels: Labels, n: nat)
    requires FreshNames(w) && Failures(env, w.tick, n) == 0
    ensures |StartN(env, w, name, labels, n).running| == |w.running| + n
  {
    hide Extends, FreshNames, StartOne;
    if n > 0 {
      var w1 := StartN(env, w, name, labels, n - 1);
      StartNCount(env, w, name, labels, n - 1);
      StartNExtends(env, w, name, labels, n - 1);
      StartOneCount(env, w1, name, labels);
    }
  }

  /** Starting adds at most `remaining` containers, all of the given labels. */
  lemma {:induction false} BatchesExtend(env: Env, name: string, labels: Labels,
                                         remaining: int, batch: nat, s: Started)
    requires batch > 0 && FreshNames(s.world) && s.ok
    ensures Extends(s.world, StartBatches(env, name, labels, remaining, batch, s).world, labels, Max(remaining, 0))
    ensures FreshNames(StartBatches(env, name, labels, remaining, batch, s).world)
    decreases Max(remaining, 0)
  {
    hide Extends, FreshNames, StartN, Failures;
    if remaining <= 0 {
      ExtendsReflexive(s.world, labels);
    } else {
      var size := Min(batch, remaining);
      var s' := StartBatch(env, name, labels, size, s);
      StartNExtends(env, s.world, name, labels, size);
      if s'.ok {
        BatchesExtend(env, name, labels, remaining - size, 2 * batch, s');
        var r := StartBatches(env, name, labels, remaining - size, 2 * batch, s');
        ExtendsComposes(s.world, s'.world, r.world, labels, size, remaining - size);
      } else {
        ExtendsWeaker(s.world, s'.world, labels, size, remaining);
      }
    }
  }

  /** Exactly `remaining` containers more when no call fails. */
  lemma {:induction false} BatchesCount(env: Env, name: string, labels: Labels,
                                        remaining: int, batch: nat, s: Started)
    requires batch > 0 && FreshNames(s.world) && s.ok && NeverFails(env)
    ensures StartBatches(env, name, labels, remaining, batch, s).ok
    ensures |StartBatches(env, name, labels, remaining, batch, s).world.running|
         == |s.world.running| + Max(remaining, 0)
    decreases Max(remaining, 0)
  {
    hide Extends, FreshNames, NeverFails;
    if remaining > 0 {
      var size := Min(batch, remaining);
      var s' := StartBatch(env, name, labels, size, s);
      FailuresBound(env, s.world.tick, size);
      StartNExtends(env, s.world, name, labels, size);
      StartNCount(env, s.world, name, labels, size);
      BatchesCount(env, name, labels, remaining - size, 2 * batch, s');
      assert StartBatches(env, name, labels, remaining, batch, s)
          == StartBatches(env, name, labels, remaining - size, 2 * batch, s');
    }
  }

  /** Exactly which containers `n` starts add: one for every call that took effect, reported or
      not, under the revision's name. */
  lemma {:induction false} StartNExactly(env: Env, w: World, name: string, labels: Labels, n: nat)
    ensures StartN(env, w, name, labels, n).running.Keys
         == w.running.Keys + set t: nat | w.tick <= t < w.tick + n && env.Acts(t) :: ContainerName(name, t)
  {
    if n > 0 {
      StartNExactly(env, w, name, labels, n - 1);
      var t' := w.tick + n - 1;
      var added := set t: nat | w.tick <= t < t' && env.Acts(t) :: ContainerName(name, t);
      var added' := set t: nat | w.tick <= t < t' + 1 && env.Acts(t) :: ContainerName(name, t);
      assert added' == added + if env.Acts(t') then {ContainerName(name, t')} else {};
    }
  }

  lemma {:induction false} StartNComposes(env: Env, w: World, name: string, labels: Labels, m: nat, n: nat)
    ensures StartN(env, StartN(env, w, name, labels, m), name, labels, n) == StartN(env, w, name, labels, m + n)
  {
    hide StartOne;
    if n > 0 {
      StartNComposes(env, w, name, labels, m, n - 1);
    }
  }

  /** However it is cut into batches, a start makes its attempts one after the other. */
  lemma {:induction false} BatchesAreStarts(env: Env, name: string, labels: Labels, remaining: int, batch: nat,
                                            s: Started)
    requires batch > 0
    ensures var r := StartBatches(env, name, labels, remaining, batch, s);
            r.world.tick >= s.world.tick
            && r.world == StartN(env, s.world, name, labels, r.world.tick - s.world.tick)
    decreases Max(remaining, 0)
  {
    hide StartN, Failures;
    if remaining <= 0 {
      assert StartN(env, s.world, name, labels, 0) == s.world by { StartNone(env, s.world, name, labels); }
    } else {
      var size := Min(batch, remaining);
      var s' := StartBatch(env, name, labels, size, s);
      if s'.ok {
        BatchesAreStarts(env, name, labels, remaining - size, 2 * batch, s');
        var r := StartBatches(env, name, labels, remaining - size, 2 * batch, s');
        StartNComposes(env, s.world, name, labels, size, r.world.tick - s'.world.tick);
      }
    }
  }

  lemma StartNone(env: Env, w: World, name: string, labels: Labels)
    ensures StartN(env, w, name, labels, 0) == w
  {}

  /** None of the calls in `[from, from + n)` reports an error. */
  ghost predicate AllOk(env: Env, from: nat, n: int) {
    forall t: nat | from <= t < from + n :: env.Ok(t)
  }

  lemma {:induction false} NoFailures(env: Env, from: nat, n: nat)
    ensures Failures(env, from, n) == 0 <==> AllOk(env, from, n)
  {
    if n > 0 {
      NoFailures(env, from, n - 1);
      assert AllOk(env, from, n) <==> AllOk(env, from, n - 1) && env.Ok(from + n - 1);
    }
  }

  /** A start succeeds exactly when none of the calls it is asked for would fail. */
  lemma StartsOkExactly(env: Env, w: World, name: string, labels: Labels, appCount: int)
    ensures StartAll(env, w, name, labels, appCount).ok
       <==> AllOk(env, w.tick, appCount)
  {
    var r := StartAll(env, w, name, labels, appCount);
    var asked := Max(appCount, 0);
    var attempts := r.world.tick - w.tick;
    DoublingStartsAreExact(env, w, name, labels, appCount);
    FailuresSplit(env, w.tick, attempts, asked - attempts);
    NoFailures(env, w.tick, asked);
    assert AllOk(env, w.tick, appCount) <==> AllOk(env, w.tick, asked);
  }

  // ---------- stopping ----------

  function StopOne(env: Env, w: World, name: ContainerName): World {
    World(if env.Acts(w.tick) then w.running - {name} else w.running, w.tick + 1)
  }

  function StopSeq(env: Env, w: World, apps: seq<App>): (r: World)
    ensures r.tick == w.tick + |apps|
  {
    if apps == [] then w
    else StopOne(env, StopSeq(env, w, apps[..|apps| - 1]), apps[|apps| - 1].name)
  }

  /** The last `n` apps of the list, or all of them. */
  function Tail(apps: seq<App>, n: nat): seq<App> {
    if n >= |apps| then apps else apps[|apps| - n..]
  }

  function Names(apps: seq<App>): set<ContainerName> {
    set a | a in apps :: a.name
  }

  ghost predicate DistinctNames(apps: seq<App>) {
    forall i, j | 0 <= i < j < |apps| :: apps[i].name != apps[j].name
  }

  /** Only containers among `names` are gone, and nothing else changed. */
  ghost predicate Loses(w: World, w': World, names: set<ContainerName>) {
    && w.tick <= w'.tick
    && w'.running.Keys <= w.running.Keys
    && (forall k | k in w'.running :: w'.running[k] == w.running[k])
    && w.running.Keys - w'.running.Keys <= names
  }

  lemma {:induction false} StopSeqLoses(env: Env, w: World, apps: seq<App>)
    ensures Loses(w, StopSeq(env, w, apps), Names(apps))
    ensures NeverFails(env) ==> StopSeq(env, w, apps).running.Keys == w.running.Keys - Names(apps)
  {
    if apps != [] {
      var front := apps[..|apps| - 1];
      StopSeqLoses(env, w, front);
      assert NeverFails(env) ==> env.Ok(w.tick + |front|);
      assert apps == front + [apps[|apps| - 1]];
      assert Names(apps) == Names(front) + {apps[|apps| - 1].name};
    }
  }

  /** Exactly which containers the stops of a list remove: those whose call took effect. */
  lemma {:induction false} StopSeqExactly(env: Env, w: World, apps: seq<App>)
    ensures StopSeq(env, w, apps).running
         == w.running - set t: nat | w.tick <= t < w.tick + |apps| && env.Acts(t) :: apps[t - w.tick].name
  {
    if apps != [] {
      var front := apps[..|apps| - 1];
      StopSeqExactly(env, w, front);
      var t' := w.tick + |front|;
      var gone := set t: nat | w.tick <= t < t' && env.Acts(t) :: front[t - w.tick].name;
      var gone' := set t: nat | w.tick <= t < t' + 1 && env.Acts(t) :: apps[t - w.tick].name;
      assert gone' == gone + if env.Acts(t') then {apps[|front|].name} else {};
    }
  }

  lemma LosesKeepsNamesFresh(w: World, w': World, names: set<ContainerName>)
    requires FreshNames(w) && Loses(w, w', names)
    ensures FreshNames(w')
  {}

  lemma LosesComposes(w: World, w1: World, w2: World, names: set<ContainerName>)
    requires Loses(w, w1, names) && Loses(w1, w2, names)
    ensures Loses(w, w2, names)
  {}

  lemma {:induction false} NamesBound(apps: seq<App>)
    ensures |Names(apps)| <= |apps|
    ensures DistinctNames(apps) ==> |Names(apps)| == |apps|
  {
    if apps != [] {
      var front, last := apps[..|apps| - 1], apps[|apps| - 1];
      NamesBound(front);
      assert apps == front + [last];
      assert Names(apps) == Names(front) + {last.name};
      if DistinctNames(apps) {
        forall a | a in front ensures a.name != last.name {
          var i :| 0 <= i < |front| && front[i] == a;
          assert apps[i] == a;
        }
      }
    }
  }
}

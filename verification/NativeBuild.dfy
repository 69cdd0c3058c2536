/** The native build's inflight, receipt and quarantine files, written step by step under the checkout
    lock. Every write is a point where the controller may die. */
module NativeBuild {
  import opened Options

  type Key = nat

  datatype Operation = Build | Check | Dependencies

  datatype Inflight = Inflight(run: nat, key: Key, group: Option<nat>, operation: Operation)

  datatype Receipt = Ran(run: nat, exitCode: int, signal: Option<int>) | Recovered(run: nat)

  datatype Disk = Disk(inflight: Option<Inflight>, quarantined: set<Key>, receipts: map<Operation, Receipt>)

  /** The disk, with two facts about the past: the keys on which a started command was killed by a
      signal or lost its controller, and whether a command ever started on such a key afterwards. */
  datatype World = World(disk: Disk, tainted: set<Key>, restarted: bool)

  /** A tainted key is quarantined or named by the inflight record, which blocks every key. */
  ghost predicate Blocked(w: World, key: Key) {
    key in w.disk.quarantined || (w.disk.inflight.Some? && w.disk.inflight.value.key == key)
  }

  ghost predicate Safe(w: World) {
    && !w.restarted
    && (forall key :: key in w.tainted ==> Blocked(w, key))
    && w.disk.quarantined <= w.tainted
    && (w.disk.inflight.Some? && w.disk.inflight.value.group.Some? ==> w.disk.inflight.value.key in w.tainted)
  }

  /** Admission refuses a quarantined key and, whatever the key, an unfinished build. */
  predicate Open(disk: Disk, key: Key) {
    key !in disk.quarantined && disk.inflight == None
  }

  /** Admission under the lock never lets a tainted key through. */
  lemma OpenIsUntainted(w: World, key: Key)
    requires Safe(w) && Open(w.disk, key)
    ensures key !in w.tainted
  {
  }

  /** What the surroundings do to one execution. */
  datatype Surroundings = Surroundings(
    admitted: bool,        // configuration, toolchain and source still as planned
    reusable: bool,        // a matching dependency preparation exists
    child: Option<nat>,    // the process group started, or a failed spawn
    recorded: bool,        // the process group could be written
    code: int,             // the exit code, or minus the signal that ended it
    missing: bool,         // a dependency preparation whose declared files are not all there afterwards
    gone: bool,            // the process group disappeared in time
    observed: bool)        // the source could be observed afterwards

  datatype Outcome = Refused | Reused | SpawnFailed | Unfinished | Completed(code: int)

  /** The exit code reported; a dependency preparation that ended well without its files is reported as 1. */
  function ExitCode(operation: Operation, code: int, missing: bool): int {
    if code == 0 && operation == Dependencies && missing then 1 else if code >= 0 then code else 128 - code
  }

  class Checkout {
    var disk: Disk
    var tainted: set<Key>
    var restarted: bool
    var history: seq<World>

    constructor ()
      ensures Valid() && disk == Disk(None, {}, map[]) && tainted == {}
    {
      disk := Disk(None, {}, map[]);
      tainted := {};
      restarted := false;
      history := [World(Disk(None, {}, map[]), {}, false)];
    }

    ghost function Now(): World
      reads this
    {
      World(disk, tainted, restarted)
    }

    predicate Reported(operation: Operation, run: nat, s: Surroundings)
      reads this
    {
      && operation in disk.receipts
      && disk.receipts[operation]
         == Ran(run, ExitCode(operation, s.code, s.missing), if s.code < 0 then Some(-s.code) else None)
    }

    /** The present and every point at which a controller could have died are safe. */
    ghost predicate Valid()
      reads this
    {
      Safe(Now()) && forall k :: 0 <= k < |history| ==> Safe(history[k])
    }

    ghost predicate Past()
      reads this
    {
      forall k :: 0 <= k < |history| ==> Safe(history[k])
    }

    /** Every change of the files goes through here, and notes what is left behind if the controller
        dies right after it; `running` is the key whose command is then unsettled. */
    method Write(d: Disk, running: set<Key>)
      requires Past() && Safe(World(d, tainted + running, restarted))
      modifies this
      ensures Past() && disk == d && tainted == old(tainted) && restarted == old(restarted)
      ensures history == old(history) + [World(d, tainted + running, restarted)]
    {
      disk := d;
      history := history + [World(d, tainted + running, restarted)];
    }

    /** The native command begins, and the controller may die with it running. */
    method Start(key: Key)
      requires Past() && Safe(World(disk, tainted + {key}, restarted || key in tainted))
      modifies this
      ensures Past() && disk == old(disk) && tainted == old(tainted) && restarted == (old(restarted) || key in tainted)
      ensures history == old(history) + [World(disk, tainted + {key}, restarted)]
    {
      restarted := restarted || key in tainted;
      history := history + [World(disk, tainted + {key}, restarted)];
    }

    method Execute(key: Key, operation: Operation, run: nat, s: Surroundings) returns (outcome: Outcome)
      requires Valid()
      modifies this
      ensures Valid() && old(history) <= history
      ensures outcome == Refused <==> !s.admitted || !old(Open(disk, key))
      ensures outcome == Refused || outcome == Reused ==> Now() == old(Now())
      ensures outcome == SpawnFailed ==> Now() == old(Now())
      ensures outcome == Unfinished ==> disk.inflight.Some? && disk.inflight.value.key == key
                                        && tainted == old(tainted) + {key} && disk.quarantined == old(disk.quarantined)
      ensures outcome.Completed? ==> disk.inflight == None && outcome.code == s.code && Reported(operation, run, s)
      ensures outcome.Completed? ==> disk.quarantined == old(disk.quarantined) + (if s.code < 0 then {key} else {})
      ensures outcome.Completed? ==> tainted == old(tainted) + (if s.code < 0 then {key} else {})
    {
      if key in disk.quarantined || disk.inflight.Some? || !s.admitted {
        return Refused;
      }
      if s.reusable && operation == Dependencies {
        return Reused;
      }
      OpenIsUntainted(Now(), key);
      Write(disk.(inflight := Some(Inflight(run, key, None, operation))), {});
      if s.child.None? {
        Write(disk.(inflight := None), {});
        return SpawnFailed;
      }
      Start(key);
      if !s.recorded {
        tainted := tainted + {key};
        return Unfinished;
      }
      Write(disk.(inflight := Some(Inflight(run, key, s.child, operation))), {key});
      outcome := Finish(key, operation, run, s);
    }

    /** From the end of the command to its settlement. */
    method Finish(key: Key, operation: Operation, run: nat, s: Surroundings) returns (outcome: Outcome)
      requires Past() && !restarted && key !in tainted && key !in disk.quarantined && s.child.Some?
      requires disk.inflight == Some(Inflight(run, key, s.child, operation))
      requires Safe(World(disk, tainted + {key}, restarted))
      modifies this
      ensures Valid() && old(history) <= history
      ensures outcome == Unfinished || outcome.Completed?
      ensures outcome == Unfinished ==> Now() == old(Now()).(tainted := old(tainted) + {key})
      ensures outcome.Completed? ==> disk.inflight == None && outcome.code == s.code && Reported(operation, run, s)
      ensures outcome.Completed? ==> disk.quarantined == old(disk.quarantined) + (if s.code < 0 then {key} else {})
      ensures outcome.Completed? ==> tainted == old(tainted) + (if s.code < 0 then {key} else {})
    {
      if !s.gone || !s.observed {
        tainted := tainted + {key};
        return Unfinished;
      }
      var receipt := Ran(run, ExitCode(operation, s.code, s.missing), if s.code < 0 then Some(-s.code) else None);
      Write(disk.(receipts := disk.receipts[operation := receipt]), {key});
      if s.code < 0 {
        tainted := tainted + {key};
        Write(disk.(quarantined := disk.quarantined + {key}), {});
      }
      Write(disk.(inflight := None), {});
      return Completed(s.code);
    }

    /** Settles an interrupted run: by its exact id, once its process group is absent. A record whose
        process group was never written cannot be recovered. */
    method Recover(run: nat, absent: bool) returns (ok: bool)
      requires Valid()
      modifies this
      ensures Valid() && old(history) <= history
      ensures ok == (old(disk.inflight).Some? && old(disk.inflight).value.run == run
                     && old(disk.inflight).value.group.Some? && absent)
      ensures !ok ==> Now() == old(Now())
      ensures ok ==> && disk.inflight == None && tainted == old(tainted)
                     && disk.quarantined == old(disk.quarantined) + {old(disk.inflight).value.key}
    {
      if disk.inflight.None? {
        return false;
      }
      var active := disk.inflight.value;
      if active.run != run || active.group.None? || !absent {
        return false;
      }
      Write(disk.(receipts := disk.receipts[active.operation := Recovered(run)]), {});
      Write(disk.(quarantined := disk.quarantined + {active.key}), {});
      Write(disk.(inflight := None), {});
      return true;
    }

    /** The controller died at some earlier point; what it left is what there is. */
    method Restart(k: nat)
      requires Valid() && k < |history|
      modifies this
      ensures Valid() && Now() == old(history)[k] && history == old(history)
    {
      disk, tainted, restarted := history[k].disk, history[k].tainted, history[k].restarted;
    }
  }

  datatype Action =
    | Run(key: Key, operation: Operation, run: nat, surroundings: Surroundings)
    | Settle(run: nat, absent: bool)

  /** Any sequence of executions and recoveries, each cut off anywhere or not at all: afterwards no
      command has ever started on a key after it was tainted, and every tainted key is still blocked. */
  method AnyRun(actions: seq<Action>, cuts: seq<Option<nat>>) returns (checkout: Checkout)
    requires |cuts| == |actions|
    ensures checkout.Valid() && !checkout.restarted
    ensures forall key :: key in checkout.tainted ==> !Open(checkout.disk, key)
  {
    checkout := new Checkout();
    for i := 0 to |actions|
      invariant checkout.Valid() && fresh(checkout)
    {
      var start := |checkout.history|;
      match actions[i] {
        case Run(key, operation, run, surroundings) =>
          var _ := checkout.Execute(key, operation, run, surroundings);
        case Settle(run, absent) =>
          var _ := checkout.Recover(run, absent);
      }
      if cuts[i].Some? && start + cuts[i].value < |checkout.history| {
        checkout.Restart(start + cuts[i].value);
      }
    }
    forall key | key in checkout.tainted ensures !Open(checkout.disk, key) {
      assert Blocked(checkout.Now(), key);
    }
  }
}

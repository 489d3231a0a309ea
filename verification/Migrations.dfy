/** The migration runner (migrations.rs): each migration in a transaction of its own, which a
    failure rolls back and a crash leaves uncommitted. */
module Migrations {

  import opened Counting

  datatype Migration<!D> = Migration(version: nat, up: D -> D)

  /** How one migration ends: applied; failed, its transaction left with `junk` in it; or
      stopped there with the process. */
  datatype Fate<D> = Succeeds | Fails(junk: D) | Stops(junk: D)

  /** A database: its contents and the versions recorded in it, in the order recorded. */
  datatype Db<D> = Db(data: D, recorded: seq<nat>)

  datatype Outcome = Done(version: nat) | Failed(version: nat) | Stopped

  function Max(versions: seq<nat>): nat
  {
    if versions == [] then 0
    else
      var rest := Max(versions[..|versions| - 1]);
      if versions[|versions| - 1] > rest then versions[|versions| - 1] else rest
  }

  function LastVersion<D>(list: seq<Migration<D>>): nat { if list == [] then 0 else list[|list| - 1].version }

  /** What a run makes of a database from the `i`-th migration on. */
  function RunFrom<D>(list: seq<Migration<D>>, i: nat, current: nat, db: Db<D>, fate: nat -> Fate<D>): (Db<D>, Outcome)
    requires i <= |list|
    decreases |list| - i
  {
    if i == |list| then (db, Done(LastVersion(list)))
    else if list[i].version <= current then RunFrom(list, i + 1, current, db, fate)
    else
      match fate(i)
      case Succeeds => RunFrom(list, i + 1, current, Db(list[i].up(db.data), db.recorded + [list[i].version]), fate)
      case Fails(_) => (db, Failed(list[i].version))
      case Stops(_) => (db, Stopped)
  }

  function Run<D>(list: seq<Migration<D>>, db: Db<D>, fate: nat -> Fate<D>): (Db<D>, Outcome)
  {
    RunFrom(list, 0, Max(db.recorded), db, fate)
  }

  /** The fates of a run in which nothing fails. */
  function Always<D>(): nat -> Fate<D> { _ => Succeeds }

  /** A connection: the committed database, and what an open transaction would make of it. */
  class Connection<D> {
    var committed: Db<D>
    var working: Db<D>
    var inTransaction: bool

    ghost predicate Valid()
      reads this
    {
      !inTransaction ==> working == committed
    }

    constructor (db: Db<D>)
      ensures Valid() && !inTransaction && committed == db
    {
      committed, working, inTransaction := db, db, false;
    }

    method Begin()
      requires Valid() && !inTransaction
      modifies this
      ensures Valid() && inTransaction && working == committed == old(committed)
    {
      inTransaction := true;
    }

    method Commit()
      requires Valid() && inTransaction
      modifies this
      ensures Valid() && !inTransaction && committed == old(working)
    {
      committed, inTransaction := working, false;
    }

    method Rollback()
      requires Valid()
      modifies this
      ensures Valid() && !inTransaction && committed == old(committed)
    {
      working, inTransaction := committed, false;
    }

    /** Apply one migration inside its transaction. A fate other than success leaves junk. */
    method Apply(m: Migration<D>, fate: Fate<D>)
      requires Valid() && inTransaction
      modifies this
      ensures Valid() && inTransaction && committed == old(committed)
      ensures fate.Succeeds? ==> working == Db(m.up(old(working).data), old(working).recorded + [m.version])
    {
      match fate {
        case Succeeds => working := Db(m.up(working.data), working.recorded + [m.version]);
        case Fails(junk) => working := working.(data := junk);
        case Stops(junk) => working := working.(data := junk);
      }
    }

    /** Apply every migration newer than the newest recorded one. A stop returns with the
        transaction open: opening the database again is a rollback. */
    method ApplyMigrations(list: seq<Migration<D>>, fate: nat -> Fate<D>) returns (r: Outcome)
      requires Valid() && !inTransaction
      modifies this
      ensures Valid() && (committed, r) == Run(list, old(committed), fate)
      ensures r.Done? ==> r.version == if |list| == 0 then 0 else list[|list| - 1].version
      ensures inTransaction <==> r.Stopped?
    {
      var current := Max(committed.recorded);
      var i := 0;
      while i < |list|
        invariant 0 <= i <= |list| && Valid() && !inTransaction
        invariant RunFrom(list, i, current, committed, fate) == Run(list, old(committed), fate)
        decreases |list| - i
      {
        if list[i].version > current {
          Begin();
          Apply(list[i], fate(i));
          match fate(i) {
            case Succeeds => Commit();
            case Fails(_) =>
              Rollback();
              return Failed(list[i].version);
            case Stops(_) => return Stopped;
          }
        }
        i := i + 1;
      }
      r := Done(LastVersion(list));
    }
  }

  // ---- what runs leave behind

  ghost predicate StrictlyIncreasing<D>(list: seq<Migration<D>>)
  {
    && (forall i :: 0 <= i < |list| ==> list[i].version > 0)
    && (forall i, j :: 0 <= i < j < |list| ==> list[i].version < list[j].version)
  }

  function Versions<D>(list: seq<Migration<D>>): seq<nat> { seq(|list|, i requires 0 <= i < |list| => list[i].version) }

  /** The migrations of a list applied, in order, to an empty database. */
  function Folded<D>(list: seq<Migration<D>>, empty: D): D
  {
    if list == [] then empty else list[|list| - 1].up(Folded(list[..|list| - 1], empty))
  }

  /** The database holds the first `k` migrations of the list, and nothing else. */
  ghost predicate Holds<D>(list: seq<Migration<D>>, k: nat, empty: D, db: Db<D>)
  {
    k <= |list| && db == Db(Folded(list[..k], empty), Versions(list[..k]))
  }

  lemma {:induction false} MaxOfPrefix<D>(list: seq<Migration<D>>, k: nat)
    requires StrictlyIncreasing(list) && k <= |list|
    ensures Max(Versions(list[..k])) == if k == 0 then 0 else list[k - 1].version
  {
    if k > 0 {
      var vs := Versions(list[..k]);
      MaxOfPrefix(list, k - 1);
      assert vs[..k - 1] == Versions(list[..k - 1]);
    }
  }

  lemma HoldsNext<D>(list: seq<Migration<D>>, k: nat, empty: D, db: Db<D>)
    requires Holds(list, k, empty, db) && k < |list|
    ensures Holds(list, k + 1, empty, Db(list[k].up(db.data), db.recorded + [list[k].version]))
  {
    assert list[..k + 1][..k] == list[..k];
  }

  function CurrentOf<D>(whole: seq<Migration<D>>, k: nat): nat
    requires k <= |whole|
  {
    if k == 0 then 0 else whole[k - 1].version
  }

  function AtLeast(a: nat, b: nat): nat { if a < b then b else a }

  /** Running the head `list` of a whole list on its first `k0` migrations, from the `i`-th on. */
  lemma {:induction false} RunFromHolds<D>(list: seq<Migration<D>>, whole: seq<Migration<D>>, i: nat, k0: nat,
                                           empty: D, db: Db<D>, fate: nat -> Fate<D>) returns (k: nat)
    requires StrictlyIncreasing(whole) && list <= whole && i <= |list| && k0 <= |whole|
    requires Holds(whole, AtLeast(i, k0), empty, db)
    ensures var (db', r) := RunFrom(list, i, CurrentOf(whole, k0), db, fate);
            && Holds(whole, k, empty, db')
            && (r.Done? ==> k == AtLeast(|list|, k0) && r.version == LastVersion(list))
            && (r.Failed? ==> k0 <= k < |list| && r.version == list[k].version && fate(k).Fails?)
            && (r.Stopped? ==> k0 <= k < |list| && fate(k).Stops?)
    decreases |list| - i
  {
    k := AtLeast(i, k0);
    if i < |list| {
      assert list[i] == whole[i];
      if i < k0 {
        assert list[i].version <= CurrentOf(whole, k0);
        k := RunFromHolds(list, whole, i + 1, k0, empty, db, fate);
      } else {
        assert list[i].version > CurrentOf(whole, k0);
        if fate(i).Succeeds? {
          HoldsNext(whole, i, empty, db);
          k := RunFromHolds(list, whole, i + 1, k0, empty, Db(list[i].up(db.data), db.recorded + [list[i].version]),
                            fate);
        }
      }
    }
  }

  /** One run of a list, or of its head, on a database that holds a prefix of it: the database
      holds a prefix no shorter; done, it holds all of the list that was run; failed or
      stopped, it holds just what precedes the migration that failed or stopped. */
  lemma RunKeepsPrefix<D>(list: seq<Migration<D>>, whole: seq<Migration<D>>, k0: nat, empty: D, db: Db<D>,
                          fate: nat -> Fate<D>)
    returns (k: nat)
    requires StrictlyIncreasing(whole) && list <= whole && Holds(whole, k0, empty, db)
    ensures var (db', r) := Run(list, db, fate);
            && Holds(whole, k, empty, db')
            && (r.Done? ==> k == AtLeast(|list|, k0) && r.version == LastVersion(list))
            && (r.Failed? ==> k0 <= k < |list| && r.version == list[k].version && fate(k).Fails?)
            && (r.Stopped? ==> k0 <= k < |list| && fate(k).Stops?)
  {
    MaxOfPrefix(whole, k0);
    k := RunFromHolds(list, whole, 0, k0, empty, db, fate);
  }

  datatype Attempt<!D> = Attempt(length: nat, fate: nat -> Fate<D>)

  /** The database after a series of runs, each of a head of the list and with its own fate. */
  function AfterRuns<D>(whole: seq<Migration<D>>, attempts: seq<Attempt<D>>, empty: D): Db<D>
    requires forall a <- attempts :: a.length <= |whole|
  {
    if attempts == [] then Db(empty, [])
    else
      var last := attempts[|attempts| - 1];
      assert last in attempts;
      Run(whole[..last.length], AfterRuns(whole, attempts[..|attempts| - 1], empty), last.fate).0
  }

  /** After any series of runs, failing or stopping wherever they do, of this version of the
      program or of earlier ones: the recorded versions are a prefix of the list and the
      database is that prefix applied to the empty one. */
  lemma {:induction false} RunsKeepPrefix<D>(whole: seq<Migration<D>>, attempts: seq<Attempt<D>>, empty: D)
    returns (k: nat)
    requires StrictlyIncreasing(whole) && forall a <- attempts :: a.length <= |whole|
    ensures Holds(whole, k, empty, AfterRuns(whole, attempts, empty))
  {
    if attempts == [] {
      k := 0;
    } else {
      var last := attempts[|attempts| - 1];
      assert last in attempts;
      k := RunsKeepPrefix(whole, attempts[..|attempts| - 1], empty);
      k := RunKeepsPrefix(whole[..last.length], whole, k, empty, AfterRuns(whole, attempts[..|attempts| - 1], empty),
                          last.fate);
    }
  }

  /** A run that is done ends where a fresh one would, whatever came before it, and running
      the same list again, or a head of it, changes nothing. */
  lemma DoneIsFresh<D>(whole: seq<Migration<D>>, attempts: seq<Attempt<D>>, empty: D, fate: nat -> Fate<D>,
                       again: nat -> Fate<D>, n: nat)
    requires StrictlyIncreasing(whole) && (forall a <- attempts :: a.length <= |whole|) && n <= |whole|
    requires Run(whole, AfterRuns(whole, attempts, empty), fate).1.Done?
    ensures var db := Run(whole, AfterRuns(whole, attempts, empty), fate).0;
            && db == Run(whole, Db(empty, []), Always()).0
            && Run(whole[..n], db, again) == (db, Done(LastVersion(whole[..n])))
  {
    var before := AfterRuns(whole, attempts, empty);
    var k := RunsKeepPrefix(whole, attempts, empty);
    var k' := RunKeepsPrefix(whole, whole, k, empty, before, fate);
    var db := Run(whole, before, fate).0;
    var f := RunKeepsPrefix(whole, whole, 0, empty, Db(empty, []), Always());
    var a := RunKeepsPrefix(whole[..n], whole, |whole|, empty, db, again);
  }

  // ---- exactly the increasing lists are applied in whole

  /** The first migration not newer than the one before it; the first of all must be newer than
      a database with none. */
  ghost predicate FirstFault<D>(list: seq<Migration<D>>, n: nat)
  {
    n < |list| && StrictlyIncreasing(list[..n]) && list[n].version <= CurrentOf(list, n)
  }

  lemma {:induction false} FaultOrIncreasing<D>(list: seq<Migration<D>>) returns (n: nat)
    ensures !StrictlyIncreasing(list) ==> FirstFault(list, n)
  {
    n := 0;
    if list != [] {
      var init, last := list[..|list| - 1], list[|list| - 1];
      n := FaultOrIncreasing(init);
      if StrictlyIncreasing(init) {
        n := |init|;
      } else {
        assert init[..n] == list[..n];
      }
    }
  }

  /** The migrations, the `n`-th apart, that a database whose newest version is `newest` may have
      recorded: those not newer than it. */
  function Reached<D>(list: seq<Migration<D>>, n: nat, newest: nat): set<nat>
  {
    set i: nat | i < |list| && i != n && list[i].version <= newest
  }

  /** Every version recorded stands for a migration other than the `n`-th, which is too old to be
      applied any more. */
  ghost predicate Misses<D>(list: seq<Migration<D>>, n: nat, db: Db<D>)
  {
    n < |list| && list[n].version <= Max(db.recorded) && |db.recorded| <= |Reached(list, n, Max(db.recorded))|
  }

  lemma MaxMore(versions: seq<nat>, v: nat)
    ensures Max(versions + [v]) == AtLeast(Max(versions), v)
  {
    assert (versions + [v])[..|versions|] == versions;
  }

  lemma ReachedGrows<D>(list: seq<Migration<D>>, n: nat, a: nat, b: nat, more: set<nat>)
    requires a <= b && more !! Reached(list, n, a) && more <= Reached(list, n, b)
    ensures |Reached(list, n, a)| + |more| <= |Reached(list, n, b)|
  {
    SubsetCount(Reached(list, n, a) + more, Reached(list, n, b));
  }

  /** In the middle of a run that began at `current`: what it has applied so far, `applied`, is
      newer than that, and not the `n`-th. */
  ghost predicate Applied<D>(list: seq<Migration<D>>, n: nat, i: nat, current: nat, db: Db<D>, applied: set<nat>)
  {
    && i <= |list| && n < |list| && list[n].version <= current <= Max(db.recorded)
    && |db.recorded| <= |Reached(list, n, current)| + |applied|
    && applied <= Reached(list, n, Max(db.recorded))
    && forall k <- applied :: k < i && list[k].version > current
  }

  lemma AppliedNext<D>(list: seq<Migration<D>>, n: nat, i: nat, current: nat, db: Db<D>, applied: set<nat>)
    requires Applied(list, n, i, current, db, applied) && i < |list| && list[i].version > current
    ensures Applied(list, n, i + 1, current, Db(list[i].up(db.data), db.recorded + [list[i].version]), applied + {i})
  {
    MaxMore(db.recorded, list[i].version);
    var newest := Max(db.recorded + [list[i].version]);
    forall k <- applied + {i}
      ensures k in Reached(list, n, newest)
    {
      assert k != i ==> k in Reached(list, n, Max(db.recorded));
    }
  }

  lemma {:induction false} RunFromMisses<D>(list: seq<Migration<D>>, head: nat, n: nat, i: nat, current: nat,
                                            db: Db<D>, fate: nat -> Fate<D>, applied: set<nat>)
    requires i <= head <= |list| && Applied(list, n, i, current, db, applied)
    ensures Misses(list, n, RunFrom(list[..head], i, current, db, fate).0)
    decreases head - i
  {
    if i == head || (list[i].version > current && !fate(i).Succeeds?) {
      ReachedGrows(list, n, current, Max(db.recorded), applied);
    } else if list[i].version <= current {
      RunFromMisses(list, head, n, i + 1, current, db, fate, applied);
    } else {
      var next := Db(list[i].up(db.data), db.recorded + [list[i].version]);
      AppliedNext(list, n, i, current, db, applied);
      RunFromMisses(list, head, n, i + 1, current, next, fate, applied + {i});
    }
  }

  lemma RunMisses<D>(list: seq<Migration<D>>, head: nat, n: nat, db: Db<D>, fate: nat -> Fate<D>)
    requires head <= |list| && Misses(list, n, db)
    ensures Misses(list, n, Run(list[..head], db, fate).0)
  {
    RunFromMisses(list, head, n, 0, Max(db.recorded), db, fate, {});
  }

  lemma MissesOne<D>(list: seq<Migration<D>>, n: nat, db: Db<D>)
    requires Misses(list, n, db)
    ensures |db.recorded| < |list|
  {
    var r := Reached(list, n, Max(db.recorded));
    AtMost(r + {n}, |list|);
  }

  /** A run stops as it comes to the `n`-th migration, or to any after it. */
  function StopsAt<D>(n: nat, junk: D): nat -> Fate<D> { i => if i < n then Succeeds else Stops(junk) }

  /** From the `n`-th migration on, such a run applies nothing more. */
  lemma {:induction false} AppliesNoMore<D>(list: seq<Migration<D>>, n: nat, i: nat, current: nat, db: Db<D>, junk: D)
    requires n <= i <= |list|
    ensures RunFrom(list, i, current, db, StopsAt(n, junk)).0 == db
    decreases |list| - i
  {
    if i < |list| {
      AppliesNoMore(list, n, i + 1, current, db, junk);
    }
  }

  /** Up to the first fault, such a run applies everything. */
  lemma {:induction false} AppliesUpTo<D>(list: seq<Migration<D>>, n: nat, i: nat, empty: D, db: Db<D>, junk: D)
    requires i <= n && n < |list| && StrictlyIncreasing(list[..n]) && Holds(list[..n], i, empty, db)
    ensures Holds(list[..n], n, empty, RunFrom(list, i, 0, db, StopsAt(n, junk)).0)
    decreases n - i
  {
    if i == n {
      AppliesNoMore(list, n, n, 0, db, junk);
    } else {
      HoldsNext(list[..n], i, empty, db);
      assert list[..n][i] == list[i];
      AppliesUpTo(list, n, i + 1, empty, Db(list[i].up(db.data), db.recorded + [list[i].version]), junk);
    }
  }

  lemma FaultMisses<D>(list: seq<Migration<D>>, n: nat, empty: D, db: Db<D>)
    requires FirstFault(list, n) && Holds(list[..n], n, empty, db)
    ensures Misses(list, n, db)
  {
    var init := list[..n];
    assert init[..n] == init;
    MaxOfPrefix(init, n);
    var reached := Reached(list, n, Max(db.recorded));
    forall i <- Below(n)
      ensures i in reached
    {
      BelowHas(n, i);
      assert init[i] == list[i] && init[i].version <= init[n - 1].version;
    }
    BelowHas(n, 0);
    SubsetCount(Below(n), reached);
  }

  lemma AfterOne<D>(list: seq<Migration<D>>, attempt: Attempt<D>, empty: D)
    requires attempt.length == |list|
    ensures AfterRuns(list, [attempt], empty) == RunFrom(list, 0, 0, Db(empty, []), attempt.fate).0
  {
    var attempts := [attempt];
    assert attempts[..0] == [] && list[..|list|] == list;
    assert AfterRuns(list, [], empty) == Db(empty, []);
  }

  /** Once a run of a list with a fault has stopped there, no later run, whatever its fate and of
      this version of the list or an earlier one, ever gets all of the list recorded. */
  lemma {:induction false} FaultIsForGood<D>(list: seq<Migration<D>>, n: nat, later: seq<Attempt<D>>, empty: D, junk: D)
    requires FirstFault(list, n) && forall a <- later :: a.length <= |list|
    ensures var db := AfterRuns(list, [Attempt(|list|, StopsAt(n, junk))] + later, empty);
            Misses(list, n, db) && |db.recorded| < |list|
  {
    var first := Attempt(|list|, StopsAt(n, junk));
    var db := AfterRuns(list, [first] + later, empty);
    if later == [] {
      assert [first] + later == [first];
      AfterOne(list, first, empty);
      assert list[..n][..0] == [];
      AppliesUpTo(list, n, 0, empty, Db(empty, []), junk);
      FaultMisses(list, n, empty, db);
    } else {
      var init, last := later[..|later| - 1], later[|later| - 1];
      FaultIsForGood(list, n, init, empty, junk);
      assert ([first] + later)[..|later|] == [first] + init;
      assert last in later;
      RunMisses(list, last.length, n, AfterRuns(list, [first] + init, empty), last.fate);
    }
    MissesOne(list, n, db);
  }

  /** Whatever runs came before, a run that is done has the whole list recorded, in its order. */
  ghost predicate DoneIsWhole<D(!new)>(list: seq<Migration<D>>, empty: D)
  {
    forall attempts: seq<Attempt<D>>, fate: nat -> Fate<D> ::
      (forall a <- attempts :: a.length <= |list|) ==> RecordsAll(list, AfterRuns(list, attempts, empty), fate)
  }

  ghost predicate RecordsAll<D>(list: seq<Migration<D>>, db: Db<D>, fate: nat -> Fate<D>)
  {
    Run(list, db, fate).1.Done? ==> Run(list, db, fate).0.recorded == Versions(list)
  }

  /** So a list can be relied on exactly when its versions are positive and strictly increasing. */
  lemma DoneIsWholeIffIncreasing<D(!new)>(list: seq<Migration<D>>, empty: D)
    ensures DoneIsWhole(list, empty) <==> StrictlyIncreasing(list)
  {
    if StrictlyIncreasing(list) {
      forall attempts: seq<Attempt<D>>, fate: nat -> Fate<D> | forall a <- attempts :: a.length <= |list|
        ensures RecordsAll(list, AfterRuns(list, attempts, empty), fate)
      {
        var k := RunsKeepPrefix(list, attempts, empty);
        var k' := RunKeepsPrefix(list, list, k, empty, AfterRuns(list, attempts, empty), fate);
        assert list[..|list|] == list;
      }
    } else {
      var n := FaultOrIncreasing(list);
      var attempts := [Attempt(|list|, StopsAt(n, empty))];
      FaultIsForGood(list, n, [], empty, empty);
      assert attempts + [] == attempts && list[..|list|] == list;
      var db := AfterRuns(list, attempts, empty);
      RunMisses(list, |list|, n, db, Always());
      MissesOne(list, n, Run(list, db, Always()).0);
      AllSucceed(list, 0, Max(db.recorded), db);
      assert !RecordsAll(list, db, Always());
    }
  }

  lemma {:induction false} AllSucceed<D>(list: seq<Migration<D>>, i: nat, current: nat, db: Db<D>)
    requires i <= |list|
    ensures RunFrom(list, i, current, db, Always()).1.Done?
    decreases |list| - i
  {
    if i < |list| {
      var next := if list[i].version <= current then db else Db(list[i].up(db.data), db.recorded + [list[i].version]);
      AllSucceed(list, i + 1, current, next);
    }
  }
}

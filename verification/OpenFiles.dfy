/** The registry of database files a process holds open (duckdb_engine.rs): a file is known by
    its path and, once it exists, by its inode. The registry's methods change the shared set;
    the machine below interleaves engines that open and close, with what others do to the files. */
module OpenFiles {

  import opened Wrappers

  /** What can name a file: DuckDB takes neither the empty path nor `:memory:` for one. */
  type Path = p: string | p != "" && p != ":memory:" witness "a"

  datatype FileKey = PathKey(path: Path) | InodeKey(inode: nat)

  /** What a claim on `path` takes, given the inode read for it. */
  function ClaimKeys(path: string, inode: Option<nat>): seq<FileKey>
  {
    if path == "" || path == ":memory:" then []
    else [PathKey(path)] + (match inode case None => [] case Some(i) => [InodeKey(i)])
  }

  function KeySet(keys: seq<FileKey>): set<FileKey> { set k <- keys }

  /** The claim's keys once its file exists. */
  function CreatedKeys(keys: seq<FileKey>, inode: Option<nat>): seq<FileKey>
  {
    match inode
    case Some(i) => if InodeKey(i) in keys then keys else keys + [InodeKey(i)]
    case None => keys
  }

  class Registry {
    var open: set<FileKey>

    constructor ()
      ensures open == {}
    {
      open := {};
    }

    /** Take every key, or none and say who has the file. */
    method Claim(path: string, inode: Option<nat>) returns (r: Result<seq<FileKey>, string>)
      modifies this
      ensures var keys := ClaimKeys(path, inode);
              if KeySet(keys) !! old(open)
              then r == Success(keys) && open == old(open) + KeySet(keys)
              else r == Failure(path) && open == old(open)
      ensures forall s: State, e :: e in s.engines && IsProbe(s.engines[e], path, inode) && old(open) == s.open ==>
        open == Next(s, Step.Claim(e)).open && (r.Success? <==> e in Next(s, Step.Claim(e)).engines)
    {
      assert KeySet([]) == {};
      if path == "" || path == ":memory:" {
        assert old(open) + {} == old(open);
        return Success([]);
      }
      var keys := [PathKey(path)];
      if inode.Some? {
        keys := keys + [InodeKey(inode.value)];
      }
      for i := 0 to |keys|
        invariant forall k :: 0 <= k < i ==> keys[k] !in open
      {
        if keys[i] in open {
          assert keys[i] in KeySet(keys);
          return Failure(path);
        }
      }
      for i := 0 to |keys|
        invariant open == old(open) + KeySet(keys[..i])
      {
        assert keys[..i + 1] == keys[..i] + [keys[i]];
        open := open + {keys[i]};
      }
      assert keys[..|keys|] == keys && keys == ClaimKeys(path, inode);
      r := Success(keys);
    }

    /** Take the inode too, now that opening the file has made it. */
    method ClaimCreated(keys: seq<FileKey>, inode: Option<nat>) returns (all: seq<FileKey>)
      modifies this
      ensures all == CreatedKeys(keys, inode)
      ensures open == old(open) + (KeySet(all) - KeySet(keys))
      ensures forall s: State, e {:trigger s.engines[e]} ::
        e in s.engines && s.engines[e].Looked? && s.engines[e].keys == keys && s.engines[e].found == inode ==>
        (old(open) == s.open ==> open == Next(s, Step.ClaimCreated(e)).open)
    {
      all := keys;
      if inode.Some? && InodeKey(inode.value) !in keys {
        open := open + {InodeKey(inode.value)};
        all := all + [InodeKey(inode.value)];
      }
    }

    /** Give every key back. */
    method Release(keys: seq<FileKey>)
      modifies this
      ensures open == old(open) - KeySet(keys)
      ensures forall s: State, e {:trigger s.engines[e]} ::
        e in s.engines && s.engines[e].Closed? && s.engines[e].keys == keys ==>
        (old(open) == s.open ==> open == Next(s, Step.Release(e)).open)
    {
      for i := 0 to |keys|
        invariant open == old(open) - KeySet(keys[..i])
      {
        assert keys[..i + 1] == keys[..i] + [keys[i]];
        open := open - {keys[i]};
      }
      assert keys[..|keys|] == keys;
    }
  }

  // ---- engines, interleaved

  /** Where an engine is between its first look at the file and the release of its claim. `seen`
      is the inode read before the claim, `file` the one its connection is on, and `found` the one
      read after opening it. */
  datatype Phase =
    | Probed(path: Path, seen: Option<nat>)
    | Claimed(path: Path, keys: seq<FileKey>)
    | Opened(path: Path, keys: seq<FileKey>, file: nat)
    | Looked(path: Path, keys: seq<FileKey>, file: nat, found: Option<nat>)
    | Live(path: Path, keys: seq<FileKey>, file: nat)
    | Closed(path: Path, keys: seq<FileKey>)

  datatype State = State(files: map<Path, nat>, engines: map<nat, Phase>, open: set<FileKey>)

  datatype Step =
    | Probe(e: nat, path: Path)
    | Claim(e: nat)
    | Open(e: nat, made: nat)
    | OpenFails(e: nat)
    | Look(e: nat)
    | ClaimCreated(e: nat)
    | Close(e: nat)
    | Release(e: nat)
    | Rename(from: Path, to: Path)
    | Link(from: Path, to: Path)
    | Unlink(path: Path)
    | Create(path: Path, made: nat)

  function Inode(files: map<Path, nat>, path: Path): Option<nat> { if path in files then Some(files[path]) else None }

  predicate IsProbe(p: Phase, path: string, seen: Option<nat>) { p.Probed? && p.path == path && p.seen == seen }

  /** The keys an engine holds. */
  function Keys(p: Phase): set<FileKey> { if p.Probed? then {} else KeySet(p.keys) }

  /** The keys it holds or must get to go on at all, which keep out an engine that needs one. */
  function Blocks(p: Phase): set<FileKey> { if p.Probed? then KeySet(ClaimKeys(p.path, p.seen)) else KeySet(p.keys) }

  /** The keys it holds or is going to add from what it has read. */
  function Will(p: Phase): set<FileKey> { if p.Looked? then KeySet(CreatedKeys(p.keys, p.found)) else Blocks(p) }

  predicate HasFile(p: Phase) { p.Opened? || p.Looked? || p.Live? }

  predicate OnFile(p: Phase, inode: nat) { HasFile(p) && p.file == inode }

  /** It will still read what is at its path. */
  predicate WillRead(p: Phase) { p.Probed? || p.Claimed? || p.Opened? }

  predicate Enabled(s: State, step: Step)
  {
    match step
    case Probe(e, path) => e !in s.engines
    case Claim(e) => e in s.engines && s.engines[e].Probed?
    case Open(e, made) => e in s.engines && s.engines[e].Claimed? && FreeInode(s, made)
    case OpenFails(e) => e in s.engines && s.engines[e].Claimed?
    case Look(e) => e in s.engines && s.engines[e].Opened?
    case ClaimCreated(e) => e in s.engines && s.engines[e].Looked?
    case Close(e) => e in s.engines && s.engines[e].Live?
    case Release(e) => e in s.engines && s.engines[e].Closed?
    case Rename(from, to) => from in s.files
    case Link(from, to) => from in s.files && to !in s.files
    case Unlink(path) => path in s.files
    case Create(path, made) => path !in s.files && FreeInode(s, made)
  }

  /** A new file's inode is no file's and no connection is on it. It may be one that was. */
  predicate FreeInode(s: State, made: nat)
  {
    made !in s.files.Values && forall f <- s.engines :: !OnFile(s.engines[f], made)
  }

  /** A step of somebody else's, on the files alone. */
  predicate OnFiles(step: Step) { step.Rename? || step.Link? || step.Unlink? || step.Create? }

  function Next(s: State, step: Step): State
    requires Enabled(s, step)
  {
    match step
    case Probe(e, path) => s.(engines := s.engines[e := Probed(path, Inode(s.files, path))])
    case Claim(e) =>
      var p := s.engines[e];
      var keys := ClaimKeys(p.path, p.seen);
      if KeySet(keys) !! s.open
      then s.(engines := s.engines[e := Claimed(p.path, keys)], open := s.open + KeySet(keys))
      else s.(engines := s.engines - {e})
    case Open(e, made) =>
      var p := s.engines[e];
      var files := if p.path in s.files then s.files else s.files[p.path := made];
      s.(files := files, engines := s.engines[e := Opened(p.path, p.keys, files[p.path])])
    case OpenFails(e) => s.(engines := s.engines[e := Closed(s.engines[e].path, s.engines[e].keys)])
    case Look(e) =>
      var p := s.engines[e];
      s.(engines := s.engines[e := Looked(p.path, p.keys, p.file, Inode(s.files, p.path))])
    case ClaimCreated(e) =>
      var p := s.engines[e];
      var keys := CreatedKeys(p.keys, p.found);
      s.(engines := s.engines[e := Live(p.path, keys, p.file)], open := s.open + (KeySet(keys) - KeySet(p.keys)))
    case Close(e) => s.(engines := s.engines[e := Closed(s.engines[e].path, s.engines[e].keys)])
    case Release(e) => s.(engines := s.engines - {e}, open := s.open - KeySet(s.engines[e].keys))
    case Rename(from, to) => s.(files := (s.files - {from})[to := s.files[from]])
    case Link(from, to) => s.(files := s.files[to := s.files[from]])
    case Unlink(path) => s.(files := s.files - {path})
    case Create(path, made) => s.(files := s.files[path := made])
  }

  // ---- what the registry is for

  ghost predicate Held(s: State, k: FileKey) { exists e :: e in s.engines && k in Keys(s.engines[e]) }

  /** The registry is the disjoint union of what the engines hold. */
  ghost predicate Partition(s: State)
  {
    && (forall e, k {:trigger k in Keys(s.engines[e])} :: e in s.engines && k in Keys(s.engines[e]) ==> k in s.open)
    && (forall k :: k in s.open ==> Held(s, k))
    && (forall e, f, k {:trigger k in Keys(s.engines[e]), k in Keys(s.engines[f])} ::
          e in s.engines && f in s.engines && k in Keys(s.engines[e]) && k in Keys(s.engines[f]) ==> e == f)
  }

  /** No two connections are on one file. */
  ghost predicate Exclusive(s: State)
  {
    forall e, f {:trigger HasFile(s.engines[e]), HasFile(s.engines[f])} ::
      e in s.engines && f in s.engines && HasFile(s.engines[e]) && HasFile(s.engines[f]) ==>
        (s.engines[e].file == s.engines[f].file ==> e == f)
  }

  ghost predicate Sound(s: State) { Partition(s) && Exclusive(s) }

  // ---- what keeps it so

  /** An engine has its path's key among those it holds or must get, and no other path's. */
  ghost predicate WellKeyed(s: State)
  {
    forall e {:trigger s.engines[e]} :: e in s.engines ==> KeyedByPath(s.engines[e])
  }

  ghost predicate KeyedByPath(p: Phase)
  {
    PathKey(p.path) in Blocks(p) && forall k <- Will(p) :: k.PathKey? ==> k.path == p.path
  }

  /** The inode an engine is going to open, or to claim, from what is at its path or was. */
  function Wants(s: State, p: Phase): Option<nat>
  {
    if WillRead(p) then Inode(s.files, p.path) else if p.Looked? then p.found else None
  }

  /** The file has a name other than `path`. */
  ghost predicate Elsewhere(s: State, path: Path, inode: nat)
  {
    exists r: Path :: r in s.files && r != path && s.files[r] == inode
  }

  /** `f` has the inode or will, or is on its file while `p` has yet to open it, and neither keeps
      the other waiting for it to end. */
  predicate Rival(p: Phase, f: Phase, inode: nat)
  {
    && Blocks(f) !! Blocks(p)
    && (InodeKey(inode) in Will(f) || ((p.Probed? || p.Claimed?) && OnFile(f, inode)))
  }

  /** An engine whose keys do not cover the inode it wants is alone in getting at it. */
  ghost predicate AloneWith(s: State, e: nat, inode: nat)
    requires e in s.engines
  {
    && !Elsewhere(s, s.engines[e].path, inode)
    && forall f {:trigger s.engines[f]} :: f in s.engines && f != e ==> !Rival(s.engines[e], s.engines[f], inode)
  }

  ghost predicate InOrder(s: State, e: nat)
    requires e in s.engines
  {
    var p := s.engines[e];
    && (Wants(s, p).Some? && InodeKey(Wants(s, p).value) !in Blocks(p) ==> AloneWith(s, e, Wants(s, p).value))
    && (HasFile(p) && InodeKey(p.file) !in Will(p) ==> !Elsewhere(s, p.path, p.file))
  }

  ghost predicate Orderly(s: State) { forall e {:trigger InOrder(s, e)} :: e in s.engines ==> InOrder(s, e) }

  /** The inodes that it holds or is to claim are files' inodes still: no new file gets one. */
  predicate KeysNamed(files: map<Path, nat>, p: Phase)
  {
    forall k <- Will(p) :: k.InodeKey? ==> k.inode in files.Values
  }

  ghost predicate Named(s: State)
  {
    forall e {:trigger s.engines[e]} :: e in s.engines ==> KeysNamed(s.files, s.engines[e])
  }

  ghost predicate Inv(s: State) { Sound(s) && WellKeyed(s) && Orderly(s) && Named(s) }

  /** What somebody else may do to the files, phase by phase. A new file is always harmless.
      Removing a name is when no engine has the file's inode or there is another name; giving the
      file at `from` another name, when every engine that has it open, will read either name, or
      has found it there, has its inode; and moving it, when in addition every engine that will
      read the new name has its inode or is alone in getting at it, and the new name's file, if
      there was one, may lose that name. */
  ghost predicate Calm(s: State, step: Step)
    requires Enabled(s, step)
  {
    match step
    case Rename(from, to) =>
      from != to ==> forall e {:trigger s.engines[e]} :: e in s.engines ==>
                       MayMove(s, e, from, to) && MayReplace(s, s.engines[e], from, to)
    case Link(from, to) => forall e {:trigger s.engines[e]} :: e in s.engines ==> MayLink(s, s.engines[e], from, to)
    case Unlink(path) => forall e {:trigger s.engines[e]} :: e in s.engines ==> MayLose(s, s.engines[e], path)
    case _ => true
  }

  ghost predicate MayLose(s: State, p: Phase, path: Path)
    requires path in s.files
  {
    InodeKey(s.files[path]) in Will(p) ==> Elsewhere(s, path, s.files[path])
  }

  ghost predicate MayReplace(s: State, p: Phase, from: Path, to: Path)
    requires from in s.files
  {
    to in s.files && s.files[to] != s.files[from] ==> MayLose(s, p, to)
  }

  predicate MayLink(s: State, p: Phase, from: Path, to: Path)
    requires from in s.files
  {
    var inode := s.files[from];
    && (OnFile(p, inode) ==> InodeKey(inode) in Will(p))
    && (p.Looked? && p.found == Some(inode) ==> InodeKey(inode) in Blocks(p))
    && (WillRead(p) && (p.path == from || p.path == to) ==> InodeKey(inode) in Blocks(p))
  }

  ghost predicate MayMove(s: State, e: nat, from: Path, to: Path)
    requires e in s.engines && from in s.files
  {
    var p, inode := s.engines[e], s.files[from];
    && (OnFile(p, inode) ==> InodeKey(inode) in Will(p))
    && (p.Looked? && p.found == Some(inode) ==> InodeKey(inode) in Blocks(p))
    && (WillRead(p) && p.path == to && InodeKey(inode) !in Blocks(p) ==>
          && (forall r: Path :: r in s.files && s.files[r] == inode ==> r == from || r == to)
          && (forall f {:trigger s.engines[f]} :: f in s.engines && f != e ==> !Rival(p, s.engines[f], inode)))
  }

  // ---- engines' own steps keep the invariant

  /** `e`, as it is to be, takes nothing from `f` that `f` wants and is alone with. */
  ghost predicate NoNewRival(s: State, f: nat, p: Phase)
    requires f in s.engines
  {
    var q := s.engines[f];
    var j := Wants(s, q);
    j.Some? && InodeKey(j.value) !in Blocks(q) && AloneWith(s, f, j.value) ==> !Rival(q, p, j.value)
  }

  /** An engine stays in order while its own phase is the same, what it wants gains no name, and
      `e`, the only engine that changes, becomes no rival. */
  lemma StaysInOrder(s: State, s': State, e: nat, f: nat)
    requires f in s.engines && f in s'.engines && s'.engines[f] == s.engines[f] && f != e && InOrder(s, f)
    requires Wants(s', s.engines[f]) == Wants(s, s.engines[f])
    requires forall r: Path, j :: Elsewhere(s', r, j) ==> Elsewhere(s, r, j)
    requires forall g :: g in s'.engines && g != e ==> g in s.engines && s'.engines[g] == s.engines[g]
    requires e in s'.engines ==> NoNewRival(s, f, s'.engines[e])
    ensures InOrder(s', f)
  {
    var p := s.engines[f];
    if Wants(s, p).Some? && InodeKey(Wants(s, p).value) !in Blocks(p) {
      var j := Wants(s, p).value;
      assert AloneWith(s, f, j);
      assert AloneWith(s', f, j);
    }
  }

  lemma SameNames(s: State, s': State)
    requires s'.files == s.files
    ensures forall r: Path, j :: Elsewhere(s', r, j) <==> Elsewhere(s, r, j)
  {
  }

  /** Engines that hold what they held leave the registry's partition as it was. */
  lemma KeysUnchanged(s: State, s': State)
    requires Partition(s) && s'.open == s.open
    requires forall f {:trigger s'.engines[f]} :: f in s'.engines ==>
               if f in s.engines then Keys(s'.engines[f]) == Keys(s.engines[f]) else Keys(s'.engines[f]) == {}
    requires forall f {:trigger s.engines[f]} :: f in s.engines && f !in s'.engines ==> Keys(s.engines[f]) == {}
    ensures Partition(s')
  {
    forall k | k in s'.open
      ensures Held(s', k)
    {
      assert Held(s, k);
      var f :| f in s.engines && k in Keys(s.engines[f]);
      assert k in Keys(s'.engines[f]);
    }
  }

  /** A newcomer sees what is at its path: an inode that another engine wants and is alone with
      has no other name, and at the same path their keys meet. */
  lemma ProbeIsNoRival(s: State, path: Path, f: nat)
    requires f in s.engines && KeyedByPath(s.engines[f])
    ensures NoNewRival(s, f, Probed(path, Inode(s.files, path)))
  {
    ProbeKeys(path, Inode(s.files, path));
  }

  lemma ProbeKeys(path: Path, seen: Option<nat>)
    ensures KeySet(ClaimKeys(path, seen)) == {PathKey(path)} + (if seen.Some? then {InodeKey(seen.value)} else {})
  {
    assert seen.Some? ==> ClaimKeys(path, seen) == [PathKey(path), InodeKey(seen.value)];
  }

  lemma ProbeKeepsInv(s: State, e: nat, path: Path)
    requires Inv(s) && Enabled(s, Probe(e, path))
    ensures Inv(Next(s, Probe(e, path)))
  {
    NextKeepsNamed(s, Probe(e, path));
    var s' := Next(s, Probe(e, path));
    ProbeKeys(path, Inode(s.files, path));
    SameNames(s, s');
    forall f | f in s'.engines
      ensures InOrder(s', f)
    {
      if f != e {
        assert InOrder(s, f);
        ProbeIsNoRival(s, path, f);
        StaysInOrder(s, s', e, f);
      }
    }
    KeysUnchanged(s, s');
  }

  /** Getting the keys it needs changes nothing that others look at. */
  lemma AsBefore(s: State, e: nat, f: nat, p: Phase)
    requires e in s.engines && f in s.engines && f != e && InOrder(s, f)
    requires Blocks(s.engines[e]) <= Blocks(p) && Will(p) == Will(s.engines[e])
             && (HasFile(p) ==> OnFile(s.engines[e], p.file))
    ensures NoNewRival(s, f, p)
  {
  }

  /** So the others stay in order when `e` ends, or does no more than get its keys. */
  lemma OthersStayInOrder(s: State, s': State, e: nat)
    requires Orderly(s) && e in s.engines && s'.files == s.files
    requires s'.engines == if e in s'.engines then s.engines[e := s'.engines[e]] else s.engines - {e}
    requires e in s'.engines ==>
               && Blocks(s.engines[e]) <= Blocks(s'.engines[e]) && Will(s'.engines[e]) == Will(s.engines[e])
               && (HasFile(s'.engines[e]) ==> OnFile(s.engines[e], s'.engines[e].file))
    ensures forall f {:trigger InOrder(s', f)} :: f in s'.engines && f != e ==> InOrder(s', f)
  {
    SameNames(s, s');
    forall f | f in s'.engines && f != e
      ensures InOrder(s', f)
    {
      assert InOrder(s, f);
      if e in s'.engines {
        AsBefore(s, e, f, s'.engines[e]);
      }
      StaysInOrder(s, s', e, f);
    }
  }

  lemma ClaimKeepsOrder(s: State, e: nat)
    requires Inv(s) && Enabled(s, Claim(e))
    ensures Orderly(Next(s, Claim(e))) && WellKeyed(Next(s, Claim(e)))
  {
    assert KeyedByPath(s.engines[e]) && InOrder(s, e);
    var s' := Next(s, Claim(e));
    OthersStayInOrder(s, s', e);
    SameNames(s, s');
  }

  lemma UnclaimedIsFree(s: State, e: nat, keys: set<FileKey>)
    requires Partition(s) && keys !! s.open
    ensures NobodyElseHas(s, e, keys)
  {
    forall f {:trigger s.engines[f]} | f in s.engines && f != e
      ensures keys !! Keys(s.engines[f])
    {
      assert forall k <- Keys(s.engines[f]) :: k in s.open;
    }
  }

  lemma ClaimKeepsInv(s: State, e: nat)
    requires Inv(s) && Enabled(s, Claim(e))
    ensures Inv(Next(s, Claim(e)))
  {
    NextKeepsNamed(s, Claim(e));
    ClaimKeepsOrder(s, e);
    ClaimKeepsPartition(s, e);
    FilesUnchanged(s, Next(s, Claim(e)));
  }

  lemma ClaimKeepsPartition(s: State, e: nat)
    requires Partition(s) && Enabled(s, Claim(e))
    ensures Partition(Next(s, Claim(e)))
  {
    var s' := Next(s, Claim(e));
    var p := s.engines[e];
    if Blocks(p) !! s.open {
      UnclaimedIsFree(s, e, Blocks(p));
      PartitionGrows(s, s', e);
    } else {
      KeysUnchanged(s, s');
    }
  }

  /** The file an engine opens, where there was one, is on no other connection. */
  lemma OpensAnother(s: State, e: nat, f: nat)
    requires Inv(s) && e in s.engines && s.engines[e].Claimed? && s.engines[e].path in s.files
    requires f in s.engines && f != e && HasFile(s.engines[f])
    ensures s.engines[f].file != s.files[s.engines[e].path]
  {
    var p, q := s.engines[e], s.engines[f];
    var j := s.files[p.path];
    assert InOrder(s, e) && InOrder(s, f) && KeyedByPath(p) && KeyedByPath(q);
    HoldsAll(q);
    assert PathKey(p.path) in Keys(p) && PathKey(q.path) in Keys(q) && Keys(p) !! Keys(q);
    if InodeKey(j) !in Blocks(p) {
      assert AloneWith(s, e, j) && !Rival(p, q, j);

    }
  }

  lemma HoldsAll(p: Phase)
    requires !p.Probed?
    ensures Blocks(p) == Keys(p) && Keys(p) <= Will(p)
  {
  }

  /** Engines' own steps take no name from a file, and keys only from files that have one. */
  lemma NextKeepsNamed(s: State, step: Step)
    requires Named(s) && Enabled(s, step) && !OnFiles(step)
    ensures Named(Next(s, step))
  {
    var s' := Next(s, step);
    MoreNames(s, step);
    forall e {:trigger s'.engines[e]} | e in s'.engines
      ensures KeysNamed(s'.files, s'.engines[e])
    {
      StaysNamed(s, step, e);
    }
  }

  lemma MoreNames(s: State, step: Step)
    requires Enabled(s, step) && !OnFiles(step)
    ensures s.files.Values <= Next(s, step).files.Values
  {
    var s' := Next(s, step);
    forall j | j in s.files.Values
      ensures j in s'.files.Values
    {
      var r: Path :| r in s.files && s.files[r] == j;
      assert r in s'.files && s'.files[r] == j;
    }
  }

  lemma StaysNamed(s: State, step: Step, e: nat)
    requires Named(s) && Enabled(s, step) && !OnFiles(step) && e in Next(s, step).engines
    requires s.files.Values <= Next(s, step).files.Values
    ensures KeysNamed(Next(s, step).files, Next(s, step).engines[e])
  {
    if e in s.engines {
      var p := s.engines[e];
      assert KeysNamed(s.files, p);
      if !p.Probed? {
        CreatedKeysAre(p.keys, if p.Looked? then p.found else Inode(s.files, p.path));
      }
    } else {
      ProbeKeys(step.path, Inode(s.files, step.path));
    }
  }

  lemma MadeIsNew(s: State, made: nat)
    requires Named(s) && FreeInode(s, made)
    ensures forall f <- s.engines :: InodeKey(made) !in Will(s.engines[f]) && InodeKey(made) !in Blocks(s.engines[f])
  {
    forall f <- s.engines
      ensures InodeKey(made) !in Will(s.engines[f]) && InodeKey(made) !in Blocks(s.engines[f])
    {
      assert KeysNamed(s.files, s.engines[f]);
      if !s.engines[f].Probed? {
        HoldsAll(s.engines[f]);
      }
    }
  }

  /** Another engine that wants the file now open has its inode or shares the path. */
  lemma OpenIsNoRival(s: State, e: nat, made: nat, f: nat)
    requires Inv(s) && Enabled(s, Open(e, made)) && f in s.engines && f != e
    ensures NoNewRival(s, f, Next(s, Open(e, made)).engines[e])
  {
    MadeIsNew(s, made);
    var s' := Next(s, Open(e, made));
    var p, q := s.engines[e], s.engines[f];
    assert KeyedByPath(p) && KeyedByPath(q);
    if Wants(s, q).Some? && InodeKey(Wants(s, q).value) !in Blocks(q) && AloneWith(s, f, Wants(s, q).value) {
      var j := Wants(s, q).value;
      assert !Rival(q, p, j);
      assert p.path in s.files && s.files[p.path] == j ==> p.path == q.path;
    }
  }

  lemma OpenKeepsOthers(s: State, e: nat, made: nat, f: nat)
    requires Inv(s) && Enabled(s, Open(e, made)) && f in s.engines && f != e
    ensures InOrder(Next(s, Open(e, made)), f)
  {
    var s' := Next(s, Open(e, made));
    var p, q := s.engines[e], s.engines[f];
    assert InOrder(s, f) && KeyedByPath(q) && KeyedByPath(p);
    if p.path in s.files {
      SameNames(s, s');
      OpenIsNoRival(s, e, made, f);
      StaysInOrder(s, s', e, f);
    } else {
      OpenMadeKeepsOthers(s, e, made, f);
    }
  }

  lemma OpenMadeKeepsOthers(s: State, e: nat, made: nat, f: nat)
    requires Inv(s) && Enabled(s, Open(e, made)) && f in s.engines && f != e && s.engines[e].path !in s.files
    ensures InOrder(Next(s, Open(e, made)), f)
  {
    MadeIsNew(s, made);
    var s' := Next(s, Open(e, made));
    var p, q := s.engines[e], s.engines[f];
    assert InOrder(s, f) && KeyedByPath(q) && KeyedByPath(p);
    var w := Wants(s', q);
    if w.Some? && InodeKey(w.value) !in Blocks(q) {
      if WillRead(q) && q.path == p.path {
        assert w == Some(made);
      } else {
        assert w == Wants(s, q) && AloneWith(s, f, w.value);
        OpenIsNoRival(s, e, made, f);
      }
      assert !Elsewhere(s', q.path, w.value);
    }
  }

  lemma OpenKeepsInv(s: State, e: nat, made: nat)
    requires Inv(s) && Enabled(s, Open(e, made))
    ensures Inv(Next(s, Open(e, made)))
  {
    NextKeepsNamed(s, Open(e, made));
    var s' := Next(s, Open(e, made));
    var p := s.engines[e];
    assert KeyedByPath(p);
    forall f | f in s'.engines
      ensures InOrder(s', f)
    {
      if f != e {
        OpenKeepsOthers(s, e, made, f);
      } else {
        OpenKeepsItself(s, e, made);
      }
    }
    OpenKeepsSound(s, e, made);
  }

  lemma OpenKeepsSound(s: State, e: nat, made: nat)
    requires Inv(s) && Enabled(s, Open(e, made))
    ensures Sound(Next(s, Open(e, made)))
  {
    var s' := Next(s, Open(e, made));
    var p := s.engines[e];
    forall f | f in s.engines && f != e && HasFile(s.engines[f])
      ensures s.engines[f].file != s'.engines[e].file
    {
      if p.path in s.files {
        OpensAnother(s, e, f);
      }
    }
    KeysUnchanged(s, s');
  }

  lemma OpenKeepsItself(s: State, e: nat, made: nat)
    requires Inv(s) && Enabled(s, Open(e, made))
    ensures InOrder(Next(s, Open(e, made)), e)
  {
    MadeIsNew(s, made);
    var s' := Next(s, Open(e, made));
    var p := s.engines[e];
    assert InOrder(s, e) && KeyedByPath(p);
    var j := s'.files[p.path];
    forall r: Path | r in s'.files && r != p.path && InodeKey(j) !in Blocks(p)
      ensures s'.files[r] != j
    {
      if p.path in s.files {
        assert AloneWith(s, e, j);
      }
    }
    forall f {:trigger s.engines[f]} | f in s.engines && f != e && InodeKey(j) !in Blocks(p)
      ensures !Rival(s'.engines[e], s.engines[f], j)
    {
      if p.path in s.files {
        assert AloneWith(s, e, j) && !Rival(p, s.engines[f], j);
      }
    }
  }

  lemma CloseKeepsOrder(s: State, e: nat, step: Step)
    requires step == Close(e) || step == OpenFails(e)
    requires Inv(s) && Enabled(s, step)
    ensures Orderly(Next(s, step)) && WellKeyed(Next(s, step))
  {
    assert KeyedByPath(s.engines[e]);
    OthersStayInOrder(s, Next(s, step), e);
  }

  lemma CloseKeepsInv(s: State, e: nat, step: Step)
    requires step == Close(e) || step == OpenFails(e)
    requires Inv(s) && Enabled(s, step)
    ensures Inv(Next(s, step))
  {
    NextKeepsNamed(s, step);
    CloseKeepsOrder(s, e, step);
    CloseKeepsSound(s, e, step);
  }

  lemma CloseKeepsSound(s: State, e: nat, step: Step)
    requires step == Close(e) || step == OpenFails(e)
    requires Sound(s) && Enabled(s, step)
    ensures Sound(Next(s, step))
  {
    FilesUnchanged(s, Next(s, step));
    KeysUnchanged(s, Next(s, step));
  }

  lemma CreatedKeysAre(keys: seq<FileKey>, found: Option<nat>)
    ensures KeySet(CreatedKeys(keys, found)) == KeySet(keys) + (if found.Some? then {InodeKey(found.value)} else {})
  {
  }

  /** An engine that has read what is at its path is going to have that inode. */
  lemma LookIsNoRival(s: State, e: nat, f: nat)
    requires Inv(s) && Enabled(s, Look(e)) && f in s.engines && f != e
    ensures NoNewRival(s, f, Next(s, Look(e)).engines[e])
  {
    var p, q := s.engines[e], s.engines[f];
    assert KeyedByPath(p) && KeyedByPath(q);
    CreatedKeysAre(p.keys, Inode(s.files, p.path));
    if Wants(s, q).Some? && InodeKey(Wants(s, q).value) !in Blocks(q) && AloneWith(s, f, Wants(s, q).value) {
      var j := Wants(s, q).value;
      assert !Rival(q, p, j);
      assert p.path in s.files && s.files[p.path] == j ==> p.path == q.path;
    }
  }

  lemma LookKeepsItself(s: State, e: nat)
    requires Inv(s) && Enabled(s, Look(e))
    ensures InOrder(Next(s, Look(e)), e) && KeyedByPath(Next(s, Look(e)).engines[e])
  {
    var s' := Next(s, Look(e));
    var p := s.engines[e];
    assert InOrder(s, e) && KeyedByPath(p);
    CreatedKeysAre(p.keys, Inode(s.files, p.path));
    SameNames(s, s');
    if Inode(s.files, p.path).Some? && InodeKey(s.files[p.path]) !in Blocks(p) {
      assert AloneWith(s, e, s.files[p.path]);
      assert AloneWith(s', e, s.files[p.path]);
    }
  }

  lemma LookKeepsOrder(s: State, e: nat)
    requires Inv(s) && Enabled(s, Look(e))
    ensures Orderly(Next(s, Look(e))) && WellKeyed(Next(s, Look(e)))
  {
    var s' := Next(s, Look(e));
    SameNames(s, s');
    forall f | f in s'.engines
      ensures InOrder(s', f)
    {
      if f == e {
        LookKeepsItself(s, e);
      } else {
        assert InOrder(s, f);
        LookIsNoRival(s, e, f);
        StaysInOrder(s, s', e, f);
      }
    }
    LookKeepsItself(s, e);
  }

  lemma LookKeepsInv(s: State, e: nat)
    requires Inv(s) && Enabled(s, Look(e))
    ensures Inv(Next(s, Look(e)))
  {
    NextKeepsNamed(s, Look(e));
    LookKeepsOrder(s, e);
    FilesUnchanged(s, Next(s, Look(e)));
    KeysUnchanged(s, Next(s, Look(e)));
  }

  lemma ClaimCreatedKeepsOrder(s: State, e: nat)
    requires Inv(s) && Enabled(s, ClaimCreated(e))
    ensures Orderly(Next(s, ClaimCreated(e))) && WellKeyed(Next(s, ClaimCreated(e)))
  {
    assert KeyedByPath(s.engines[e]) && InOrder(s, e);
    var s' := Next(s, ClaimCreated(e));
    OthersStayInOrder(s, s', e);
    SameNames(s, s');
  }

  /** The inode found is nobody else's to claim. */
  lemma FoundIsFree(s: State, e: nat, f: nat)
    requires Inv(s) && Enabled(s, ClaimCreated(e)) && f in s.engines && f != e
    ensures Will(s.engines[e]) !! Keys(s.engines[f])
  {
    var p, q := s.engines[e], s.engines[f];
    CreatedKeysAre(p.keys, p.found);
    assert InOrder(s, e) && InOrder(s, f) && KeyedByPath(p) && KeyedByPath(q);
    assert Keys(p) !! Keys(q);
    if !q.Probed? && p.found.Some? && InodeKey(p.found.value) !in Keys(p) {
      assert AloneWith(s, e, p.found.value) && !Rival(p, q, p.found.value);
    }
  }

  /** What one engine holds grows by keys nobody holds. */
  ghost predicate NobodyElseHas(s: State, e: nat, keys: set<FileKey>)
  {
    forall f {:trigger s.engines[f]} :: f in s.engines && f != e ==> keys !! Keys(s.engines[f])
  }

  lemma PartitionGrows(s: State, s': State, e: nat)
    requires Partition(s) && e in s.engines && s'.engines.Keys == s.engines.Keys
    requires forall f {:trigger s'.engines[f]} :: f in s.engines && f != e ==> s'.engines[f] == s.engines[f]
    requires Keys(s.engines[e]) <= Keys(s'.engines[e]) && s'.open == s.open + Keys(s'.engines[e])
    requires NobodyElseHas(s, e, Keys(s'.engines[e]))
    ensures Partition(s')
  {
    forall k | k in s'.open
      ensures Held(s', k)
    {
      if k !in Keys(s'.engines[e]) {
        assert Held(s, k);
        var f :| f in s.engines && k in Keys(s.engines[f]);
        assert k in Keys(s'.engines[f]);
      }
    }
  }

  /** Engines whose connections are on what they were on, or closed. */
  lemma FilesUnchanged(s: State, s': State)
    requires Exclusive(s)
    requires forall f {:trigger s'.engines[f]} :: f in s'.engines && HasFile(s'.engines[f]) ==>
               f in s.engines && OnFile(s.engines[f], s'.engines[f].file)
    ensures Exclusive(s')
  {
    forall f, g {:trigger HasFile(s'.engines[f]), HasFile(s'.engines[g])}
      | f in s'.engines && g in s'.engines && HasFile(s'.engines[f]) && HasFile(s'.engines[g])
      ensures s'.engines[f].file == s'.engines[g].file ==> f == g
    {
      assert HasFile(s.engines[f]) && HasFile(s.engines[g]);
    }
  }

  lemma ClaimCreatedKeepsPartition(s: State, e: nat)
    requires Inv(s) && Enabled(s, ClaimCreated(e))
    ensures Partition(Next(s, ClaimCreated(e)))
  {
    var s' := Next(s, ClaimCreated(e));
    var p := s.engines[e];
    forall f {:trigger s.engines[f]} | f in s.engines && f != e
      ensures Will(p) !! Keys(s.engines[f])
    {
      FoundIsFree(s, e, f);
    }
    assert NobodyElseHas(s, e, Will(p));
    ClaimCreatedAdds(s, e);
    PartitionGrows(s, s', e);
  }

  lemma ClaimCreatedAdds(s: State, e: nat)
    requires Partition(s) && Enabled(s, ClaimCreated(e))
    ensures var s', p := Next(s, ClaimCreated(e)), s.engines[e];
            Keys(s'.engines[e]) == Will(p) && Keys(p) <= Will(p) && s'.open == s.open + Will(p)
  {
    var p := s.engines[e];
    CreatedKeysAre(p.keys, p.found);
    assert forall k <- Keys(p) :: k in s.open;
  }

  lemma ClaimCreatedKeepsInv(s: State, e: nat)
    requires Inv(s) && Enabled(s, ClaimCreated(e))
    ensures Inv(Next(s, ClaimCreated(e)))
  {
    NextKeepsNamed(s, ClaimCreated(e));
    ClaimCreatedKeepsOrder(s, e);
    ClaimCreatedKeepsPartition(s, e);
    FilesUnchanged(s, Next(s, ClaimCreated(e)));
  }

  lemma ReleaseKeepsInv(s: State, e: nat)
    requires Inv(s) && Enabled(s, Release(e))
    ensures Inv(Next(s, Release(e)))
  {
    NextKeepsNamed(s, Release(e));
    var s' := Next(s, Release(e));
    OthersStayInOrder(s, s', e);
    forall k | k in s'.open
      ensures Held(s', k)
    {
      assert Held(s, k);
      var f :| f in s.engines && k in Keys(s.engines[f]);
      assert k in Keys(s'.engines[f]);
    }
    forall f, k {:trigger k in Keys(s'.engines[f])} | f in s'.engines && k in Keys(s'.engines[f])
      ensures k in s'.open
    {
      assert k in Keys(s.engines[f]) && Keys(s.engines[e]) == KeySet(s.engines[e].keys);
      assert k !in Keys(s.engines[e]);
    }
    forall f, g | f in s'.engines && g in s'.engines && HasFile(s'.engines[f]) && HasFile(s'.engines[g])
      ensures s'.engines[f].file == s'.engines[g].file ==> f == g
    {
      assert HasFile(s.engines[f]) && HasFile(s.engines[g]);
    }
  }

  // ---- what may be done to the files

  lemma LinkNames(s: State, from: Path, to: Path, r: Path, inode: nat)
    requires from in s.files && to !in s.files
    ensures Elsewhere(Next(s, Link(from, to)), r, inode)
            <==> Elsewhere(s, r, inode) || (inode == s.files[from] && r != to)
  {
    var s' := Next(s, Link(from, to));
    if q: Path :| q in s.files && q != r && s.files[q] == inode {
      assert q in s'.files && s'.files[q] == inode;
    }
    assert to in s'.files && s'.files[to] == s.files[from];
  }

  lemma LinkIff(s: State, e: nat, from: Path, to: Path)
    requires e in s.engines && InOrder(s, e) && from in s.files && to !in s.files
    ensures MayLink(s, s.engines[e], from, to) <==> InOrder(Next(s, Link(from, to)), e)
  {
    var s', p := Next(s, Link(from, to)), s.engines[e];
    var w := Wants(s', p);
    if HasFile(p) {
      LinkNames(s, from, to, p.path, p.file);
    }
    if w.Some? {
      LinkNames(s, from, to, p.path, w.value);
    }
    assert from in s.files && s.files[from] == s'.files[from];
    assert p.path != from ==> Elsewhere(s, p.path, s.files[from]);
  }

  /** The inode has a name besides these two. */
  ghost predicate ThirdName(s: State, from: Path, to: Path, inode: nat)
  {
    exists r: Path :: r in s.files && r != from && r != to && s.files[r] == inode
  }

  lemma RenameNames(s: State, from: Path, to: Path, r: Path, inode: nat)
    requires from in s.files && from != to
    ensures var s' := Next(s, Rename(from, to));
            && (Elsewhere(s', r, inode) ==> Elsewhere(s, r, inode) || (inode == s.files[from] && r != to))
            && (inode == s.files[from] && r != to ==> Elsewhere(s', r, inode))
            && (r == to ==> (Elsewhere(s', r, inode) <==> ThirdName(s, from, to, inode)))
  {
    var s' := Next(s, Rename(from, to));
    assert to in s'.files && s'.files[to] == s.files[from];
    forall q: Path | q != from && q != to
      ensures q in s.files <==> q in s'.files
      ensures q in s.files ==> s'.files[q] == s.files[q]
    {
    }
    if ThirdName(s, from, to, inode) {
      var q: Path :| q in s.files && q != from && q != to && s.files[q] == inode;
      assert q in s'.files && s'.files[q] == inode;
    }
  }

  lemma RenameIff(s: State, e: nat, from: Path, to: Path)
    requires e in s.engines && InOrder(s, e) && from in s.files && from != to
    ensures MayMove(s, e, from, to) <==> InOrder(Next(s, Rename(from, to)), e)
  {
    var s', p := Next(s, Rename(from, to)), s.engines[e];
    var w := Wants(s', p);
    if HasFile(p) {
      RenameNames(s, from, to, p.path, p.file);
    }
    if w.Some? {
      RenameNames(s, from, to, p.path, w.value);
    }
    assert p.path != from ==> Elsewhere(s, p.path, s.files[from]);
    assert ThirdName(s, from, to, s.files[from])
      <==> !forall r: Path :: r in s.files && s.files[r] == s.files[from] ==> r == from || r == to;
  }

  lemma UnlinkKeepsOrder(s: State, e: nat, path: Path)
    requires e in s.engines && InOrder(s, e) && path in s.files
    ensures InOrder(Next(s, Unlink(path)), e)
  {
    var s', p := Next(s, Unlink(path)), s.engines[e];
    forall r: Path, j | Elsewhere(s', r, j)
      ensures Elsewhere(s, r, j)
    {
      var q: Path :| q in s'.files && q != r && s'.files[q] == j;
      assert q in s.files;
    }
    if Wants(s', p).Some? && InodeKey(Wants(s', p).value) !in Blocks(p) {
      assert AloneWith(s, e, Wants(s, p).value);
    }
  }

  /** A new file is alone with its name, and in nobody's keys. */
  lemma CreateKeepsOrder(s: State, e: nat, path: Path, made: nat)
    requires Named(s) && e in s.engines && InOrder(s, e) && path !in s.files && FreeInode(s, made)
    ensures InOrder(Next(s, Create(path, made)), e)
  {
    MadeIsNew(s, made);
    var s', p := Next(s, Create(path, made)), s.engines[e];
    forall r: Path, j | Elsewhere(s', r, j)
      ensures Elsewhere(s, r, j) || (j == made && r != path)
    {
      var q: Path :| q in s'.files && q != r && s'.files[q] == j;
      assert q != path ==> q in s.files && s.files[q] == j;
    }
    var w := Wants(s', p);
    if w.Some? && InodeKey(w.value) !in Blocks(p) && w.value != made {
      assert w == Wants(s, p) && AloneWith(s, e, w.value);
    }
    if w == Some(made) {
      assert p.Looked? ==> InodeKey(made) in Will(p) by {
        if p.Looked? {
          CreatedKeysAre(p.keys, p.found);
        }
      }
    }
  }

  // ---- what names are left

  lemma UnlinkLeaves(s: State, path: Path, j: nat)
    requires path in s.files
    ensures j in Next(s, Unlink(path)).files.Values
       <==> j in s.files.Values && (j == s.files[path] ==> Elsewhere(s, path, j))
  {
    var s' := Next(s, Unlink(path));
    if r: Path :| r in s.files && r != path && s.files[r] == j {
      assert r in s'.files && s'.files[r] == j;
    }
  }

  lemma RenameLeaves(s: State, from: Path, to: Path, j: nat)
    requires from in s.files && from != to
    ensures j in Next(s, Rename(from, to)).files.Values
       <==> j in s.files.Values && (to in s.files && j == s.files[to] != s.files[from] ==> Elsewhere(s, to, j))
  {
    var s' := Next(s, Rename(from, to));
    assert to in s'.files && s'.files[to] == s.files[from];
    if r: Path :| r in s.files && r != from && r != to && s.files[r] == j {
      assert r in s'.files && s'.files[r] == j;
    }
  }

  lemma AddsNames(s: State, path: Path, inode: nat, j: nat)
    requires path !in s.files && j in s.files.Values
    ensures j in s.files[path := inode].Values
  {
    var r: Path :| r in s.files && s.files[r] == j;
    assert s.files[path := inode][r] == j;
  }

  /** The step leaves a name to every file whose inode the engine has. */
  ghost predicate Leaves(s: State, p: Phase, step: Step)
    requires Enabled(s, step) && OnFiles(step)
  {
    match step
    case Rename(from, to) => from != to ==> MayReplace(s, p, from, to)
    case Unlink(path) => MayLose(s, p, path)
    case _ => true
  }

  lemma LeavesIff(s: State, e: nat, step: Step)
    requires e in s.engines && KeysNamed(s.files, s.engines[e]) && Enabled(s, step) && OnFiles(step)
    requires !(step.Rename? && step.from == step.to)
    ensures Leaves(s, s.engines[e], step) <==> KeysNamed(Next(s, step).files, s.engines[e])
  {
    var p, files := s.engines[e], Next(s, step).files;
    forall k | k in Will(p) && k.InodeKey?
      ensures step.Unlink? ==>
                (k.inode in files.Values <==> (k.inode == s.files[step.path] ==> Elsewhere(s, step.path, k.inode)))
      ensures step.Rename? ==>
                (k.inode in files.Values <==>
                   (step.to in s.files && k.inode == s.files[step.to] != s.files[step.from] ==>
                      Elsewhere(s, step.to, k.inode)))
      ensures step.Link? || step.Create? ==> k.inode in files.Values
    {
      match step
      case Unlink(path) => UnlinkLeaves(s, path, k.inode);
      case Rename(from, to) => RenameLeaves(s, from, to, k.inode);
      case Link(from, to) => AddsNames(s, to, s.files[from], k.inode);
      case Create(path, made) => AddsNames(s, path, made, k.inode);
      case _ =>
    }
    match step
    case Unlink(path) => assert InodeKey(s.files[path]).inode == s.files[path];
    case Rename(from, to) => assert to in s.files ==> InodeKey(s.files[to]).inode == s.files[to];
    case _ =>
  }

  /** Calm is just what leaves every engine in order, and every file that it has a name. */
  lemma CalmIff(s: State, step: Step)
    requires Orderly(s) && Named(s) && Enabled(s, step) && OnFiles(step)
    ensures Calm(s, step) <==> Orderly(Next(s, step)) && Named(Next(s, step))
  {
    var s' := Next(s, step);
    if step.Rename? && step.from == step.to {
      assert s'.files == s.files;
      assert s' == s;
    } else {
      forall e | e in s.engines
        ensures Leaves(s, s.engines[e], step) <==> KeysNamed(s'.files, s.engines[e])
        ensures Disturbs(s, e, step) <==> !InOrder(s', e)
      {
        assert KeysNamed(s.files, s.engines[e]);
        LeavesIff(s, e, step);
        DisturbsIff(s, e, step);
      }
      CalmParts(s, step);
    }
  }

  ghost predicate Disturbs(s: State, e: nat, step: Step)
    requires e in s.engines && Enabled(s, step) && OnFiles(step)
  {
    match step
    case Rename(from, to) => from != to && !MayMove(s, e, from, to)
    case Link(from, to) => !MayLink(s, s.engines[e], from, to)
    case _ => false
  }

  lemma DisturbsIff(s: State, e: nat, step: Step)
    requires Named(s) && e in s.engines && InOrder(s, e) && Enabled(s, step) && OnFiles(step)
    requires !(step.Rename? && step.from == step.to)
    ensures Disturbs(s, e, step) <==> !InOrder(Next(s, step), e)
  {
    match step
    case Link(from, to) => LinkIff(s, e, from, to);
    case Rename(from, to) => RenameIff(s, e, from, to);
    case Unlink(path) => UnlinkKeepsOrder(s, e, path);
    case Create(path, made) => CreateKeepsOrder(s, e, path, made);
    case _ =>
  }

  lemma CalmParts(s: State, step: Step)
    requires Enabled(s, step) && OnFiles(step)
    ensures Calm(s, step) <==> forall e {:trigger s.engines[e]} :: e in s.engines ==>
                                 Leaves(s, s.engines[e], step) && !Disturbs(s, e, step)
  {
  }

  lemma FilesKeepSound(s: State, step: Step)
    requires Enabled(s, step) && OnFiles(step)
    ensures Sound(s) ==> Sound(Next(s, step))
    ensures WellKeyed(s) ==> WellKeyed(Next(s, step))
  {
    var s' := Next(s, step);
    if Sound(s) {
      KeysUnchanged(s, s');
      FilesUnchanged(s, s');
    }
  }

  lemma NextKeepsInv(s: State, step: Step)
    requires Inv(s) && Enabled(s, step) && Calm(s, step)
    ensures Inv(Next(s, step))
  {
    match step
    case Probe(e, path) => ProbeKeepsInv(s, e, path);
    case Claim(e) => ClaimKeepsInv(s, e);
    case Open(e, made) => OpenKeepsInv(s, e, made);
    case OpenFails(e) => CloseKeepsInv(s, e, step);
    case Look(e) => LookKeepsInv(s, e);
    case ClaimCreated(e) => ClaimCreatedKeepsInv(s, e);
    case Close(e) => CloseKeepsInv(s, e, step);
    case Release(e) => ReleaseKeepsInv(s, e);
    case _ =>
      CalmIff(s, step);
      FilesKeepSound(s, step);
  }

  // ---- and nothing more may

  /** Steps of engines alone that end with a key held twice or a file opened twice. */
  ghost predicate Breaks(s: State, steps: seq<Step>)
    decreases steps
  {
    || !Sound(s)
    || (steps != [] && !OnFiles(steps[0]) && Enabled(s, steps[0]) && Breaks(Next(s, steps[0]), steps[1..]))
  }

  ghost predicate CanBreak(s: State) { exists steps :: Breaks(s, steps) }

  lemma Before(s: State, step: Step)
    requires !OnFiles(step) && Enabled(s, step) && CanBreak(Next(s, step))
    ensures CanBreak(s)
  {
    var steps :| Breaks(Next(s, step), steps);
    assert ([step] + steps)[1..] == steps;
    assert Breaks(s, [step] + steps);
  }

  lemma Broken(s: State)
    requires !Sound(s)
    ensures CanBreak(s)
  {
    assert Breaks(s, []);
  }

  function Rank(p: Phase): nat
  {
    match p
    case Probed(_, _) => 6
    case Claimed(_, _) => 5
    case Opened(_, _, _) => 4
    case Looked(_, _, _, _) => 3
    case Live(_, _, _) => 2
    case Closed(_, _) => 1
  }

  /** An engine can be brought to its end. */
  function Onward(p: Phase, h: nat): Step
  {
    match p
    case Probed(_, _) => Claim(h)
    case Claimed(_, _) => OpenFails(h)
    case Opened(_, _, _) => Look(h)
    case Looked(_, _, _, _) => ClaimCreated(h)
    case Live(_, _, _) => Close(h)
    case Closed(_, _) => Release(h)
  }

  lemma {:induction false} Leave(s: State, h: nat) returns (left: State)
    requires h in s.engines
    ensures left.files == s.files && left.engines == s.engines - {h}
    ensures CanBreak(left) ==> CanBreak(s)
    decreases Rank(s.engines[h])
  {
    var step := Onward(s.engines[h], h);
    var next := Next(s, step);
    if h in next.engines {
      left := Leave(next, h);
      assert next.engines - {h} == s.engines - {h};
    } else {
      left := next;
    }
    if CanBreak(left) {
      Before(s, step);
    }
  }

  /** There is always another number. */
  lemma {:induction false} Above(used: set<nat>) returns (n: nat)
    ensures forall u <- used :: u < n
  {
    n := 0;
    if used != {} {
      var u :| u in used;
      var m := Above(used - {u});
      n := if m > u then m else u + 1;
      assert used == used - {u} + {u};
    }
  }

  lemma NewInode(s: State) returns (made: nat)
    ensures FreeInode(s, made)
    ensures forall f <- s.engines :: InodeKey(made) !in Will(s.engines[f])
  {
    var inKeys := set f, k | f in s.engines && k in Will(s.engines[f]) && k.InodeKey? :: k.inode;
    var onFiles := set f | f in s.engines && HasFile(s.engines[f]) :: s.engines[f].file;
    made := Above(s.files.Values + inKeys + onFiles);
    forall f <- s.engines
      ensures InodeKey(made) !in Will(s.engines[f]) && !OnFile(s.engines[f], made)
    {
      assert InodeKey(made).inode == made;
      assert InodeKey(made) in Will(s.engines[f]) ==> made in inKeys;
      assert OnFile(s.engines[f], made) ==> made in onFiles;
    }
  }

  /** `e` wants an inode that its keys do not cover. */
  predicate Exposed(s: State, e: nat, inode: nat)
  {
    e in s.engines && Wants(s, s.engines[e]) == Some(inode) && InodeKey(inode) !in Blocks(s.engines[e])
  }

  /** What two engines alone hold is all of the registry. */
  lemma HeldByTwo(s: State, e: nat, f: nat)
    requires Partition(s) && e in s.engines && s.engines.Keys <= {e, f}
    ensures s.open == Keys(s.engines[e]) + if f in s.engines then Keys(s.engines[f]) else {}
  {
    forall k | k in s.open
      ensures k in Keys(s.engines[e]) + if f in s.engines then Keys(s.engines[f]) else {}
    {
      assert Held(s, k);
    }
  }

  /** Nothing is lost: soundness is, or `e` is nearer to claiming the inode. */
  ghost predicate Nearer(s: State, s': State, e: nat, f: nat, inode: nat)
    requires e in s.engines && f in s.engines
  {
    !Sound(s') ||
    (&& s'.engines.Keys == {e, f} && s'.engines[f] == s.engines[f] && Exposed(s', e, inode)
     && Rival(s'.engines[e], s.engines[f], inode) && KeyedByPath(s'.engines[e])
     && Rank(s'.engines[e]) < Rank(s.engines[e]))
  }

  /** `f` has the inode that `e` wants, or is going to have it. */
  ghost predicate Ahead(s: State, e: nat, f: nat, inode: nat)
  {
    && Sound(s) && e != f && s.engines.Keys == {e, f} && Exposed(s, e, inode)
    && KeyedByPath(s.engines[e]) && Rival(s.engines[e], s.engines[f], inode) && !s.engines[f].Probed?
    && (InodeKey(inode) in Keys(s.engines[f]) || InodeKey(inode) !in Will(s.engines[f]))
  }

  lemma AdvanceByClaim(s: State, e: nat, f: nat, inode: nat)
    requires Ahead(s, e, f, inode) && s.engines[e].Probed?
    ensures Nearer(s, Next(s, Claim(e)), e, f, inode)
  {
    HeldByTwo(s, e, f);
  }

  lemma AdvanceByOpening(s: State, e: nat, f: nat, inode: nat, made: nat)
    requires Ahead(s, e, f, inode) && s.engines[e].Claimed? && Enabled(s, Open(e, made))
    ensures Nearer(s, Next(s, Open(e, made)), e, f, inode)
  {
    var s' := Next(s, Open(e, made));
    if OnFile(s.engines[f], inode) {
      assert HasFile(s'.engines[e]) && HasFile(s'.engines[f]);
    }
  }

  lemma AdvanceByLooking(s: State, e: nat, f: nat, inode: nat)
    requires Ahead(s, e, f, inode) && s.engines[e].Opened?
    ensures Nearer(s, Next(s, Look(e)), e, f, inode)
  {
    CreatedKeysAre(s.engines[e].keys, Some(inode));
  }

  lemma AdvanceByClaimingCreated(s: State, e: nat, f: nat, inode: nat)
    requires Ahead(s, e, f, inode) && s.engines[e].Looked?
    ensures Nearer(s, Next(s, ClaimCreated(e)), e, f, inode)
  {
    CreatedKeysAre(s.engines[e].keys, s.engines[e].found);
    var s' := Next(s, ClaimCreated(e));
    assert InodeKey(inode) in Keys(s'.engines[e]) && InodeKey(inode) in Keys(s'.engines[f]);
  }

  /** A step of `e` towards claiming the inode it wants. */
  lemma Advance(s: State, e: nat, f: nat, inode: nat) returns (step: Step)
    requires Ahead(s, e, f, inode)
    ensures !OnFiles(step) && Enabled(s, step)
    ensures Nearer(s, Next(s, step), e, f, inode)
  {
    match s.engines[e]
    case Probed(_, _) =>
      step := Claim(e);
      AdvanceByClaim(s, e, f, inode);
    case Claimed(_, _) =>
      var made := NewInode(s);
      step := Open(e, made);
      AdvanceByOpening(s, e, f, inode, made);
    case Opened(_, _, _) =>
      step := Look(e);
      AdvanceByLooking(s, e, f, inode);
    case Looked(_, _, _, _) =>
      step := ClaimCreated(e);
      AdvanceByClaimingCreated(s, e, f, inode);
  }

  /** The two of them, left alone, end with the inode claimed twice or the file opened twice. */
  lemma {:induction false} RivalAlone(s: State, e: nat, f: nat, inode: nat)
    requires s.engines.Keys == {e, f} && e != f && KeyedByPath(s.engines[e]) && Exposed(s, e, inode)
    requires Rival(s.engines[e], s.engines[f], inode)
    ensures CanBreak(s)
    decreases Rank(s.engines[e]) + Rank(s.engines[f])
  {
    if !Sound(s) {
      Broken(s);
      return;
    }
    var q := s.engines[f];
    HeldByTwo(s, e, f);
    var step;
    if q.Probed? {
      step := Claim(f);
    } else if q.Looked? && InodeKey(inode) in Will(q) && InodeKey(inode) !in Keys(q) {
      step := ClaimCreated(f);
      CreatedKeysAre(q.keys, q.found);
    } else {
      step := Advance(s, e, f, inode);
    }
    if Sound(Next(s, step)) {
      RivalAlone(Next(s, step), e, f, inode);
    } else {
      Broken(Next(s, step));
    }
    Before(s, step);
  }

  lemma StillExposed(s: State, s': State, h: nat, e: nat, inode: nat)
    requires WellKeyed(s) && Exposed(s, e, inode) && h != e
    requires s'.files == s.files && s'.engines == s.engines - {h}
    ensures WellKeyed(s') && Exposed(s', e, inode)
  {
  }

  /** An engine and its rival, left alone, end with the inode claimed twice or the file opened
      twice. */
  lemma {:induction false} RivalBreaks(s: State, e: nat, f: nat, inode: nat)
    requires WellKeyed(s) && Exposed(s, e, inode) && f in s.engines && f != e
             && Rival(s.engines[e], s.engines[f], inode)
    ensures CanBreak(s)
    decreases s.engines.Keys
  {
    var others := s.engines.Keys - {e, f};
    if !Sound(s) {
      Broken(s);
    } else if others != {} {
      var h :| h in others;
      var s' := Leave(s, h);
      StillExposed(s, s', h, e, inode);
      RivalBreaks(s', e, f, inode);
    } else {
      assert s.engines.Keys == {e, f};
      RivalAlone(s, e, f, inode);
    }
  }

  /** A newcomer that comes by a file's other name claims its inode, where nobody else holds any. */
  lemma Newcomer(s: State, e: nat, g: nat, r: Path) returns (joined: State)
    requires Sound(s) && s.engines.Keys == {e} && g != e && r in s.files && !s.engines[e].Probed?
    requires KeyedByPath(s.engines[e]) && r != s.engines[e].path && InodeKey(s.files[r]) !in Keys(s.engines[e])
    ensures joined.files == s.files && joined.engines.Keys == {e, g} && joined.engines[e] == s.engines[e]
    ensures joined.engines[g] == Claimed(r, ClaimKeys(r, Some(s.files[r])))
    ensures CanBreak(joined) ==> CanBreak(s)
  {
    var s1 := Next(s, Probe(g, r));
    HeldByTwo(s, e, e);
    ProbeKeys(r, Some(s.files[r]));
    HoldsAll(s.engines[e]);
    joined := Next(s1, Claim(g));
    if CanBreak(joined) {
      Before(s1, Claim(g));
      Before(s, Probe(g, r));
    }
  }

  lemma NewcomerIsRival(s: State, e: nat, inode: nat, r: Path)
    requires Sound(s) && WellKeyed(s) && s.engines.Keys == {e} && Exposed(s, e, inode)
    requires !s.engines[e].Probed? && !s.engines[e].Claimed?
    requires r in s.files && r != s.engines[e].path && s.files[r] == inode
    ensures CanBreak(s)
  {
    HoldsAll(s.engines[e]);
    var s' := Newcomer(s, e, e + 1, r);
    ProbeKeys(r, Some(inode));
    RivalBreaks(s', e, e + 1, inode);
  }

  /** So does an engine that wants an inode with another name. */
  lemma {:induction false} NameBreaks(s: State, e: nat, inode: nat, r: Path)
    requires WellKeyed(s) && Exposed(s, e, inode) && r in s.files && r != s.engines[e].path && s.files[r] == inode
    ensures CanBreak(s)
    decreases s.engines.Keys, Rank(s.engines[e])
  {
    var p := s.engines[e];
    if !Sound(s) {
      Broken(s);
    } else if h :| h in s.engines && h != e {
      var s' := Leave(s, h);
      StillExposed(s, s', h, e, inode);
      NameBreaks(s', e, inode, r);
    } else if p.Probed? {
      assert s.engines.Keys == {e};
      HeldByTwo(s, e, e);
      NameBreaks(Next(s, Claim(e)), e, inode, r);
      Before(s, Claim(e));
    } else if p.Claimed? {
      var made := NewInode(s);
      NameBreaks(Next(s, Open(e, made)), e, inode, r);
      Before(s, Open(e, made));
    } else {
      assert s.engines.Keys == {e};
      NewcomerIsRival(s, e, inode, r);
    }
  }

  /** And an engine whose file has another name, and whose keys do not have the file. */
  lemma {:induction false} FileBreaks(s: State, e: nat, r: Path)
    requires WellKeyed(s) && e in s.engines && HasFile(s.engines[e])
             && InodeKey(s.engines[e].file) !in Will(s.engines[e])
    requires r in s.files && r != s.engines[e].path && s.files[r] == s.engines[e].file
    ensures CanBreak(s)
    decreases s.engines.Keys
  {
    if !Sound(s) {
      Broken(s);
    } else if h :| h in s.engines && h != e {
      var s' := Leave(s, h);
      FileBreaks(s', e, r);
    } else {
      assert s.engines.Keys == {e};
      HoldsAll(s.engines[e]);
      var s1 := Newcomer(s, e, e + 1, r);
      var made := NewInode(s1);
      var s2 := Next(s1, Open(e + 1, made));
      assert HasFile(s2.engines[e]) && HasFile(s2.engines[e + 1]);
      Broken(s2);
      Before(s1, Open(e + 1, made));
    }
  }

  // ---- an inode whose file is gone

  lemma NewPath(files: map<Path, nat>, path: Path) returns (q: Path)
    ensures q !in files && q != path
  {
    var lengths := set r: Path | r in files.Keys + {path} :: |r|;
    var n := Above(lengths);
    q := seq(n + 9, _ => 'a');
    assert forall r: Path :: r in files.Keys + {path} ==> |r| in lengths;
  }

  /** On its way to its end an engine keeps what it has, or gets what it was to get. */
  lemma OnwardKeeps(s: State, e: nat, inode: nat)
    requires Partition(s) && s.engines.Keys == {e} && KeyedByPath(s.engines[e]) && !s.engines[e].Closed?
    requires InodeKey(inode) in Will(s.engines[e])
    ensures var s' := Next(s, Onward(s.engines[e], e));
            && s'.files == s.files && s'.engines.Keys == {e} && KeyedByPath(s'.engines[e])
            && InodeKey(inode) in Will(s'.engines[e]) && Rank(s'.engines[e]) < Rank(s.engines[e])
  {
    var p := s.engines[e];
    HeldByTwo(s, e, e);
    if !p.Probed? {
      CreatedKeysAre(p.keys, if p.Looked? then p.found else Inode(s.files, p.path));
    }
  }

  /** A newcomer claims a path where there is no file, */
  lemma NewcomerElsewhere(s: State, e: nat, g: nat) returns (q: Path, joined: State)
    requires Partition(s) && s.engines.Keys == {e} && KeyedByPath(s.engines[e]) && s.engines[e].Closed? && g != e
    ensures q !in s.files && joined.files == s.files
    ensures joined.engines == s.engines[g := Claimed(q, ClaimKeys(q, None))]
    ensures CanBreak(joined) ==> CanBreak(s)
  {
    q := NewPath(s.files, s.engines[e].path);
    HeldByTwo(s, e, e);
    ProbeKeys(q, None);
    var s1 := Next(s, Probe(g, q));
    joined := Next(s1, Claim(g));
    if CanBreak(joined) {
      Before(s1, Claim(g));
      Before(s, Probe(g, q));
    }
  }

  /** makes a new file of the inode there, and claims what is held already. */
  lemma ReuseBreaks(s: State, e: nat, g: nat, inode: nat)
    requires s.engines.Keys == {e, g} && e != g && s.engines[e].Closed? && InodeKey(inode) in Will(s.engines[e])
    requires s.engines[g].Claimed? && s.engines[g].path !in s.files && inode !in s.files.Values
    ensures CanBreak(s)
  {
    var s1 := Next(s, Open(g, inode));
    var s2 := Next(s1, Look(g));
    CreatedKeysAre(s.engines[g].keys, Some(inode));
    var s3 := Next(s2, ClaimCreated(g));
    assert InodeKey(inode) in Keys(s3.engines[e]) && InodeKey(inode) in Keys(s3.engines[g]);
    Broken(s3);
    Before(s2, ClaimCreated(g));
    Before(s1, Look(g));
    Before(s, Open(g, inode));
  }

  lemma {:induction false} GoneBreaks(s: State, e: nat, inode: nat)
    requires WellKeyed(s) && e in s.engines && InodeKey(inode) in Will(s.engines[e]) && inode !in s.files.Values
    ensures CanBreak(s)
    decreases s.engines.Keys, Rank(s.engines[e])
  {
    var others := s.engines.Keys - {e};
    if !Sound(s) {
      Broken(s);
    } else if others != {} {
      var h :| h in others;
      var s' := Leave(s, h);
      GoneBreaks(s', e, inode);
    } else {
      assert s.engines.Keys == {e} && KeyedByPath(s.engines[e]);
      if s.engines[e].Closed? {
        var q, s' := NewcomerElsewhere(s, e, e + 1);
        ReuseBreaks(s', e, e + 1, inode);
      } else {
        OnwardKeeps(s, e, inode);
        GoneBreaks(Next(s, Onward(s.engines[e], e)), e, inode);
        Before(s, Onward(s.engines[e], e));
      }
    }
  }

  /** From a sound state, engines left to themselves can break the registry or the exclusion
      exactly when one of them is out of order, or has the inode of a file that is gone. */
  lemma CanBreakIff(s: State)
    requires Sound(s) && WellKeyed(s)
    ensures CanBreak(s) <==> !(Orderly(s) && Named(s))
  {
    if !Named(s) {
      var e :| e in s.engines && !KeysNamed(s.files, s.engines[e]);
      var k :| k in Will(s.engines[e]) && k.InodeKey? && k.inode !in s.files.Values;
      assert k == InodeKey(k.inode);
      GoneBreaks(s, e, k.inode);
    } else if !Orderly(s) {
      var e :| e in s.engines && !InOrder(s, e);
      var p := s.engines[e];
      if HasFile(p) && InodeKey(p.file) !in Will(p) && Elsewhere(s, p.path, p.file) {
        var r: Path :| r in s.files && r != p.path && s.files[r] == p.file;
        FileBreaks(s, e, r);
      } else {
        var inode := Wants(s, p).value;
        if Elsewhere(s, p.path, inode) {
          var r: Path :| r in s.files && r != p.path && s.files[r] == inode;
          NameBreaks(s, e, inode, r);
        } else {
          var f :| f in s.engines && f != e && Rival(p, s.engines[f], inode);
          RivalBreaks(s, e, f, inode);
        }
      }
    } else if CanBreak(s) {
      var steps :| Breaks(s, steps);
      StaysSound(s, steps);
    }
  }

  lemma {:induction false} StaysSound(s: State, steps: seq<Step>)
    requires Inv(s)
    ensures !Breaks(s, steps)
    decreases |steps|
  {
    if steps != [] && !OnFiles(steps[0]) && Enabled(s, steps[0]) {
      NextKeepsInv(s, steps[0]);
      StaysSound(Next(s, steps[0]), steps[1..]);
    }
  }

  /** What somebody else does to the files is harmless exactly when it is calm. */
  lemma CalmIsExact(s: State, step: Step)
    requires Inv(s) && Enabled(s, step) && OnFiles(step)
    ensures Calm(s, step) <==> !CanBreak(Next(s, step))
  {
    CalmIff(s, step);
    FilesKeepSound(s, step);
    CanBreakIff(Next(s, step));
  }

  // ---- runs

  /** The states a run passes through, each step enabled and, if `calm`, calm. */
  ghost predicate IsRun(states: seq<State>, steps: seq<Step>, calm: bool)
  {
    && |states| == |steps| + 1
    && states[0].engines == map[] && states[0].open == {}
    && forall i :: 0 <= i < |steps| ==> Goes(states[i], steps[i], states[i + 1], calm)
  }

  ghost predicate Goes(s: State, step: Step, s': State, calm: bool)
  {
    Enabled(s, step) && (calm ==> Calm(s, step)) && s' == Next(s, step)
  }

  /** In every calm run, whatever files there are to begin with: the registry is the disjoint
      union of the claims, no two connections are on one file, and the file of a live engine is
      either in the registry or, its name gone since it was opened, out of everybody's reach. */
  lemma {:induction false} RegistryExcludes(states: seq<State>, steps: seq<Step>)
    requires IsRun(states, steps, true)
    ensures Inv(states[|steps|])
    ensures forall e {:trigger states[|steps|].engines[e]} ::
              e in states[|steps|].engines && states[|steps|].engines[e].Live? ==>
              var p := states[|steps|].engines[e];
              InodeKey(p.file) in states[|steps|].open || !Elsewhere(states[|steps|], p.path, p.file)
    decreases |steps|
  {
    var last := |steps|;
    if last > 0 {
      assert Goes(states[last - 1], steps[last - 1], states[last], true);
      RegistryExcludes(states[..last], steps[..last - 1]);
      NextKeepsInv(states[last - 1], steps[last - 1]);
    }
    LiveFilesAreCovered(states[last]);
  }

  lemma LiveFilesAreCovered(s: State)
    requires Inv(s)
    ensures forall e {:trigger s.engines[e]} ::
              e in s.engines && s.engines[e].Live? ==>
              var p := s.engines[e];
              InodeKey(p.file) in s.open || !Elsewhere(s, p.path, p.file)
  {
    forall e {:trigger s.engines[e]} | e in s.engines && s.engines[e].Live?
      ensures var p := s.engines[e]; InodeKey(p.file) in s.open || !Elsewhere(s, p.path, p.file)
    {
      assert InOrder(s, e);
      var p := s.engines[e];
      assert InodeKey(p.file) in Will(p) ==> InodeKey(p.file) in Keys(s.engines[e]);
    }
  }

  /** The keys some engines hold. */
  function Claims(engines: map<nat, Phase>): set<FileKey>
  {
    set f, k | f in engines && k in Keys(engines[f]) :: k
  }

  /** Wherever in a calm run an engine's opening or its life ends, its claim refused or given
      back, the registry is afterwards just the claims of the others, and they are as they were. */
  lemma FailureRestores(states: seq<State>, steps: seq<Step>, i: nat, e: nat)
    requires IsRun(states, steps, true) && i < |steps|
    requires e in states[i].engines && e !in states[i + 1].engines
    ensures states[i + 1].engines == states[i].engines - {e} && states[i + 1].files == states[i].files
    ensures states[i + 1].open == Claims(states[i].engines - {e})
    ensures states[i].engines[e].Probed? ==> states[i + 1].open == states[i].open
  {
    RegistryExcludes(states[..i + 2], steps[..i + 1]);
    var s, s' := states[i], states[i + 1];
    assert Goes(s, steps[i], s', true);
    forall k
      ensures k in s'.open <==> k in Claims(s'.engines)
    {
      assert k in s'.open ==> Held(s', k);
    }
  }

  /** Each kind of step that is not calm comes up after some calm run: a file held by one engine
      is moved onto a path another has looked at; */
  lemma RenameOntoBreaks() returns (states: seq<State>, steps: seq<Step>)
    ensures IsRun(states, steps, true) && Enabled(states[|steps|], Rename("b", "a"))
    ensures !Calm(states[|steps|], Rename("b", "a")) && CanBreak(Next(states[|steps|], Rename("b", "a")))
  {
    states, steps := TwoLook();
    var s := states[|steps|];
    states, steps := OneMore(states, steps, Claim(1));
    RegistryExcludes(states, steps);
    SecondClaims(s);
    RenameOntoIsNotCalm(Next(s, Claim(1)));
  }

  lemma SecondClaims(s: State)
    requires TwoLooked(s)
    ensures var s' := Next(s, Claim(1));
            && s'.files == s.files
            && s'.engines == map[0 := Probed("a", Some(1)), 1 := Claimed("b", ClaimKeys("b", Some(2)))]
  {
  }

  predicate TwoLooked(s: State)
  {
    s == State(map["a" := 1, "b" := 2], map[0 := Probed("a", Some(1)), 1 := Probed("b", Some(2))], {})
  }

  lemma TwoLook() returns (states: seq<State>, steps: seq<Step>)
    ensures IsRun(states, steps, true)
    ensures TwoLooked(states[|steps|])
  {
    states, steps := [State(map["a" := 1, "b" := 2], map[], {})], [];
    states, steps := OneMore(states, steps, Probe(0, "a"));
    states, steps := OneMore(states, steps, Probe(1, "b"));
  }

  lemma RenameOntoIsNotCalm(s: State)
    requires Inv(s) && s.files == map["a" := 1, "b" := 2]
    requires s.engines == map[0 := Probed("a", Some(1)), 1 := Claimed("b", ClaimKeys("b", Some(2)))]
    ensures !Calm(s, Rename("b", "a")) && CanBreak(Next(s, Rename("b", "a")))
  {
    ProbeKeys("a", Some(1));
    ProbeKeys("b", Some(2));
    assert Rival(s.engines[0], s.engines[1], 2);
    assert !MayMove(s, 0, "b", "a");
    CalmIsExact(s, Rename("b", "a"));
  }

  /** a file is linked to a path where an engine has seen none; */
  lemma LinkOntoBreaks() returns (states: seq<State>, steps: seq<Step>)
    ensures IsRun(states, steps, true) && Enabled(states[|steps|], Link("b", "a"))
    ensures !Calm(states[|steps|], Link("b", "a")) && CanBreak(Next(states[|steps|], Link("b", "a")))
  {
    states, steps := [State(map["b" := 2], map[], {})], [];
    states, steps := OneMore(states, steps, Probe(0, "a"));
    RegistryExcludes(states, steps);
    var s := states[|steps|];
    ProbeKeys("a", None);
    assert s.engines[0] == Probed("a", None) && !MayLink(s, s.engines[0], "b", "a");
    CalmIsExact(s, Link("b", "a"));
  }

  /** a file is moved away that an engine has just made and not claimed. */
  lemma MoveAwayBreaks() returns (states: seq<State>, steps: seq<Step>)
    ensures IsRun(states, steps, true) && Enabled(states[|steps|], Rename("a", "b"))
    ensures !Calm(states[|steps|], Rename("a", "b")) && CanBreak(Next(states[|steps|], Rename("a", "b")))
  {
    states, steps := [State(map[], map[], {})], [];
    states, steps := OneMore(states, steps, Probe(0, "a"));
    states, steps := OneMore(states, steps, Claim(0));
    ProbeKeys("a", None);
    assert states[|steps|].engines == map[0 := Claimed("a", ClaimKeys("a", None))];
    states, steps := OneMore(states, steps, Open(0, 9));
    RegistryExcludes(states, steps);
    MoveAwayIsNotCalm(states[|steps|]);
  }

  lemma MoveAwayIsNotCalm(s: State)
    requires Inv(s) && s.files == map["a" := 9] && s.engines == map[0 := Opened("a", ClaimKeys("a", None), 9)]
    ensures !Calm(s, Rename("a", "b")) && CanBreak(Next(s, Rename("a", "b")))
  {
    ProbeKeys("a", None);
    assert !MayMove(s, 0, "a", "b");
    CalmIsExact(s, Rename("a", "b"));
  }

  /** and a file's only name is removed that an engine has looked at. */
  lemma RemoveBreaks() returns (states: seq<State>, steps: seq<Step>)
    ensures IsRun(states, steps, true) && Enabled(states[|steps|], Unlink("a"))
    ensures !Calm(states[|steps|], Unlink("a")) && CanBreak(Next(states[|steps|], Unlink("a")))
  {
    states, steps := [State(map["a" := 1], map[], {})], [];
    states, steps := OneMore(states, steps, Probe(0, "a"));
    RegistryExcludes(states, steps);
    var s := states[|steps|];
    ProbeKeys("a", Some(1));
    assert s.engines[0] == Probed("a", Some(1)) && !MayLose(s, s.engines[0], "a");
    CalmIsExact(s, Unlink("a"));
  }

  /** A calm run goes on with any step of an engine's. */
  lemma OneMore(states: seq<State>, steps: seq<Step>, step: Step) returns (longer: seq<State>, more: seq<Step>)
    requires IsRun(states, steps, true) && Enabled(states[|steps|], step) && !OnFiles(step)
    ensures IsRun(longer, more, true)
    ensures |more| == |steps| + 1 && longer[|more|] == Next(states[|steps|], step)
  {
    var s, next := states[|steps|], Next(states[|steps|], step);
    longer, more := states + [next], steps + [step];
    assert Goes(s, step, next, true);
  }
}

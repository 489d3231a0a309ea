/** The provenance of tables (duckdb_engine.rs, origins.rs): the file, query or attached database
    behind each, and the options a file was read with. The engine has it in memory and, attached
    tables apart, in rows of the database. A record is written and read back as it is: its JSON
    form is not part of this model. */
module Origins {

  import opened Wrappers
  import opened Decimal

  datatype Origin = File(path: string) | Derived(how: string) | Attached(alias: string, source: string)

  datatype FileRead = FileRead(opts: string, shape: seq<(string, Option<string>)>)

  datatype Kind = Table | View

  datatype Row = Row(origin: Origin, read: Option<FileRead>)

  /** The catalog and the rows are on disk, the other two maps in memory. */
  datatype Store = Store(catalog: map<string, Kind>, rows: map<string, Row>,
                         origins: map<string, Origin>, fileReads: map<string, FileRead>)

  datatype Op =
    | RegisterFile(name: string, path: string, read: FileRead)
    | RegisterFileAsTable(name: string, path: string, read: FileRead)
    | CreateTable(name: string, origin: Origin)
    | DropTable(name: string)
    | RenameTable(name: string, to: string)
    | SetFileRead(name: string, read: FileRead)
    | Attach(alias: string, source: string, names: set<string>)
    | Detach(alias: string)

  /** The rows after `name`'s origin is recorded. */
  function Saved(rows: map<string, Row>, name: string, origin: Origin, read: Option<FileRead>): map<string, Row>
  {
    if origin.Attached? then rows else rows[name := Row(origin, read)]
  }

  function SavedRead(rows: map<string, Row>, name: string, read: FileRead): map<string, Row>
  {
    if name in rows then rows[name := rows[name].(read := Some(read))] else rows
  }

  function Renamed(rows: map<string, Row>, name: string, to: string): map<string, Row>
  {
    var others := rows - {name, to};
    if name in rows then others[to := rows[name]] else others
  }

  /** What DuckDB allows: replacing a thing of its own kind, making or renaming to a free
      name, dropping and renaming tables. */
  predicate Allowed(s: Store, op: Op)
  {
    match op
    case RegisterFile(name, _, _) => name in s.catalog ==> s.catalog[name].View?
    case RegisterFileAsTable(name, _, _) => name in s.catalog ==> s.catalog[name].Table?
    case CreateTable(name, _) => name !in s.catalog
    case DropTable(name) => name in s.catalog && s.catalog[name].Table?
    case RenameTable(name, to) => name in s.catalog && s.catalog[name].Table? && to !in s.catalog
    case _ => true
  }

  /** An operation, all of it or, when DuckDB refuses it, none. */
  function Next(s: Store, op: Op): Store
  {
    if !Allowed(s, op) then s
    else
      match op
      case RegisterFile(name, path, read) =>
        Store(s.catalog[name := View], Saved(s.rows, name, File(path), Some(read)),
              s.origins[name := File(path)], s.fileReads[name := read])
      case RegisterFileAsTable(name, path, read) =>
        Store(s.catalog[name := Table], Saved(s.rows, name, File(path), Some(read)),
              s.origins[name := File(path)], s.fileReads[name := read])
      case CreateTable(name, origin) =>
        Store(s.catalog[name := Table], Saved(s.rows, name, origin, None), s.origins[name := origin], s.fileReads)
      case DropTable(name) =>
        Store(s.catalog - {name}, s.rows - {name}, s.origins - {name}, s.fileReads - {name})
      case RenameTable(name, to) =>
        Store((s.catalog - {name})[to := s.catalog[name]], Renamed(s.rows, name, to),
              if name in s.origins then (s.origins - {name})[to := s.origins[name]] else s.origins,
              if name in s.fileReads then (s.fileReads - {name})[to := s.fileReads[name]] else s.fileReads)
      case SetFileRead(name, read) => s.(rows := SavedRead(s.rows, name, read), fileReads := s.fileReads[name := read])
      case Attach(alias, source, names) => s.(origins := WithAttached(s.origins, alias, source, names))
      case Detach(alias) =>
        s.(origins :=
             map n | n in s.origins && !(s.origins[n].Attached? && s.origins[n].alias == alias) :: s.origins[n])
  }

  /** Opening the database anew: rows of tables that are gone are dropped, the rest read. */
  function Reopened(s: Store): Store
  {
    var rows := map n | n in s.rows && n in s.catalog :: s.rows[n];
    Store(s.catalog, rows, OriginsIn(rows, rows.Keys), ReadsIn(rows, rows.Keys))
  }

  /** What the rows of some tables say of their origins, and of how their files were read. */
  function OriginsIn(rows: map<string, Row>, names: set<string>): map<string, Origin>
  {
    map n | n in rows && n in names && !rows[n].origin.Attached? :: rows[n].origin
  }

  function ReadsIn(rows: map<string, Row>, names: set<string>): map<string, FileRead>
  {
    map n | n in rows && n in names && rows[n].read.Some? :: rows[n].read.value
  }

  lemma OneMoreRow(rows: map<string, Row>, names: set<string>, n: string)
    requires n in rows
    ensures OriginsIn(rows, names + {n})
         == if rows[n].origin.Attached? then OriginsIn(rows, names) else OriginsIn(rows, names)[n := rows[n].origin]
    ensures ReadsIn(rows, names + {n})
         == if rows[n].read.None? then ReadsIn(rows, names) else ReadsIn(rows, names)[n := rows[n].read.value]
  {
  }

  function WithAttached(origins: map<string, Origin>, alias: string, source: string, names: set<string>)
    : map<string, Origin>
  {
    origins + (map n | n in names :: Attached(alias, source))
  }

  lemma OneMoreAttached(origins: map<string, Origin>, alias: string, source: string, names: set<string>, n: string)
    ensures WithAttached(origins, alias, source, names + {n})
         == WithAttached(origins, alias, source, names)[n := Attached(alias, source)]
  {
  }

  // ---- what is known of one name

  function Get<V>(m: map<string, V>, name: string): Option<V> { if name in m then Some(m[name]) else None }

  /** What goes by a name: what it is, where it is known to be from, its row, and how it was read. */
  datatype Entry = Entry(kind: Option<Kind>, origin: Option<Origin>, row: Option<Row>, read: Option<FileRead>)

  const NOTHING := Entry(None, None, None, None)

  function At(s: Store, name: string): Entry
  {
    Entry(Get(s.catalog, name), Get(s.origins, name), Get(s.rows, name), Get(s.fileReads, name))
  }

  ghost predicate OthersStay(s: Store, s': Store, names: set<string>)
  {
    forall n :: n !in names ==> At(s', n) == At(s, n)
  }

  class Engine {
    var catalog: map<string, Kind>
    var rows: map<string, Row>
    var origins: map<string, Origin>
    var fileReads: map<string, FileRead>

    ghost function State(): Store
      reads this
    {
      Store(catalog, rows, origins, fileReads)
    }

    /** An engine on a database: what its rows record, it knows again. */
    constructor Open(catalog: map<string, Kind>, recorded: map<string, Row>)
      ensures State() == Reopened(Store(catalog, recorded, map[], map[]))
      ensures forall n :: At(State(), n) ==
                if n !in catalog then NOTHING
                else if n !in recorded then NOTHING.(kind := Some(catalog[n]))
                else Entry(Some(catalog[n]), if recorded[n].origin.Attached? then None else Some(recorded[n].origin),
                           Some(recorded[n]), recorded[n].read)
    {
      var kept := map n | n in recorded && n in catalog :: recorded[n];
      var todo := kept.Keys;
      var origins: map<string, Origin> := map[];
      var fileReads: map<string, FileRead> := map[];
      while todo != {}
        invariant todo <= kept.Keys
        invariant origins == OriginsIn(kept, kept.Keys - todo) && fileReads == ReadsIn(kept, kept.Keys - todo)
        decreases todo
      {
        var n :| n in todo;
        OneMoreRow(kept, kept.Keys - todo, n);
        assert kept.Keys - (todo - {n}) == kept.Keys - todo + {n};
        todo := todo - {n};
        if !kept[n].origin.Attached? {
          origins := origins[n := kept[n].origin];
        }
        if kept[n].read.Some? {
          fileReads := fileReads[n := kept[n].read.value];
        }
      }
      assert kept.Keys - todo == kept.Keys;
      this.catalog, this.rows, this.origins, this.fileReads := catalog, kept, origins, fileReads;
      ReopenedIs(Store(catalog, recorded, map[], map[]));
    }

    method Save(name: string, origin: Origin, read: Option<FileRead>)
      modifies this`rows
      ensures rows == Saved(old(rows), name, origin, read)
    {
      if !origin.Attached? {
        rows := rows[name := Row(origin, read)];
      }
    }

    method RenameRow(name: string, to: string)
      modifies this`rows
      ensures rows == Renamed(old(rows), name, to)
    {
      var row := if name in rows then Some(rows[name]) else None;
      rows := rows - {name, to};
      if row.Some? {
        rows := rows[to := row.value];
      }
    }

    method RegisterFile(name: string, path: string, read: FileRead) returns (ok: bool)
      modifies this
      ensures ok <==> At(old(State()), name).kind != Some(Table)
      ensures At(State(), name) == if !ok then At(old(State()), name)
                                   else Entry(Some(View), Some(File(path)),
                                              Some(Row(File(path), Some(read))), Some(read))
      ensures OthersStay(old(State()), State(), {name})
      ensures State() == Next(old(State()), Op.RegisterFile(name, path, read))
    {
      if name in catalog && catalog[name].Table? {
        return false;
      }
      catalog := catalog[name := View];
      Save(name, File(path), Some(read));
      origins := origins[name := File(path)];
      fileReads := fileReads[name := read];
      ok := true;
    }

    /** The first step of reading a file into a table: what is known of origins now. The second
        waits for the connection, and others may have it first. */
    method KnownOrigins() returns (known: map<string, Origin>)
      ensures known == origins
    {
      known := origins;
    }

    /** The second: into a table of its own, under its stem's name, unless something else has that
        name, and then under the first numbered one that is free or the file's. What a name holds
        is looked up among the origins known before. */
    method RegisterFileAsTable(known: map<string, Origin>, stem: string, path: string, read: FileRead)
      returns (ok: bool, name: string)
      modifies this
      ensures IsFirstFit(old(catalog), known, stem, path, name)
      ensures ok <==> At(old(State()), name).kind != Some(View)
      ensures At(State(), name) == if !ok then At(old(State()), name)
                                   else Entry(Some(Table), Some(File(path)),
                                              Some(Row(File(path), Some(read))), Some(read))
      ensures OthersStay(old(State()), State(), {name})
      ensures State() == Next(old(State()), Op.RegisterFileAsTable(name, path, read))
    {
      name := TableNameFor(catalog, known, stem, path);
      if name in catalog && catalog[name].View? {
        return false, name;
      }
      catalog := catalog[name := Table];
      Save(name, File(path), Some(read));
      origins := origins[name := File(path)];
      fileReads := fileReads[name := read];
      ok := true;
    }

    method CreateTable(name: string, origin: Origin) returns (ok: bool)
      modifies this
      ensures ok <==> At(old(State()), name).kind == None
      ensures var was := At(old(State()), name);
              At(State(), name) == if !ok then was
                                   else Entry(Some(Table), Some(origin),
                                              if origin.Attached? then was.row else Some(Row(origin, None)), was.read)
      ensures OthersStay(old(State()), State(), {name})
      ensures State() == Next(old(State()), Op.CreateTable(name, origin))
    {
      if name in catalog {
        return false;
      }
      catalog := catalog[name := Table];
      Save(name, origin, None);
      origins := origins[name := origin];
      ok := true;
    }

    method DropTable(name: string) returns (ok: bool)
      modifies this
      ensures ok <==> At(old(State()), name).kind == Some(Table)
      ensures At(State(), name) == if ok then NOTHING else At(old(State()), name)
      ensures OthersStay(old(State()), State(), {name})
      ensures State() == Next(old(State()), Op.DropTable(name))
    {
      if name !in catalog || catalog[name].View? {
        return false;
      }
      catalog := catalog - {name};
      rows := rows - {name};
      origins := origins - {name};
      fileReads := fileReads - {name};
      ok := true;
    }

    method RenameTable(name: string, to: string) returns (ok: bool)
      modifies this
      ensures ok <==> At(old(State()), name).kind == Some(Table) && At(old(State()), to).kind == None
      ensures !ok ==> State() == old(State())
      ensures ok ==> At(State(), name) == NOTHING
      ensures ok ==> var was, left := At(old(State()), name), At(old(State()), to);
                     At(State(), to) == Entry(was.kind, if was.origin.Some? then was.origin else left.origin,
                                              was.row, if was.read.Some? then was.read else left.read)
      ensures OthersStay(old(State()), State(), {name, to})
      ensures State() == Next(old(State()), Op.RenameTable(name, to))
    {
      if name !in catalog || catalog[name].View? || to in catalog {
        return false;
      }
      catalog := (catalog - {name})[to := catalog[name]];
      RenameRow(name, to);
      if name in origins {
        origins := (origins - {name})[to := origins[name]];
      }
      if name in fileReads {
        fileReads := (fileReads - {name})[to := fileReads[name]];
      }
      ok := true;
    }

    method SetFileRead(name: string, read: FileRead)
      modifies this
      ensures var was := At(old(State()), name);
              At(State(), name) == Entry(was.kind, was.origin,
                                         if was.row.Some? then Some(Row(was.row.value.origin, Some(read))) else None,
                                         Some(read))
      ensures OthersStay(old(State()), State(), {name})
      ensures State() == Next(old(State()), Op.SetFileRead(name, read))
    {
      if name in rows {
        rows := rows[name := rows[name].(read := Some(read))];
      }
      fileReads := fileReads[name := read];
    }

    method Attach(alias: string, source: string, names: set<string>)
      modifies this
      ensures forall n <- names :: At(State(), n) == At(old(State()), n).(origin := Some(Attached(alias, source)))
      ensures OthersStay(old(State()), State(), names)
      ensures State() == Next(old(State()), Op.Attach(alias, source, names))
    {
      var todo := names;
      while todo != {}
        invariant todo <= names
        invariant origins == WithAttached(old(origins), alias, source, names - todo)
        invariant catalog == old(catalog) && rows == old(rows) && fileReads == old(fileReads)
        decreases todo
      {
        var n :| n in todo;
        OneMoreAttached(old(origins), alias, source, names - todo, n);
        assert names - (todo - {n}) == names - todo + {n};
        todo := todo - {n};
        origins := origins[n := Attached(alias, source)];
      }
      assert names - todo == names;
      AttachIs(old(State()), alias, source, names);
    }

    method Detach(alias: string)
      modifies this
      ensures forall n ::
                At(State(), n) == if exists source :: At(old(State()), n).origin == Some(Attached(alias, source))
                                  then At(old(State()), n).(origin := None) else At(old(State()), n)
      ensures State() == Next(old(State()), Op.Detach(alias))
    {
      origins := map n | n in origins && !(origins[n].Attached? && origins[n].alias == alias) :: origins[n];
    }
  }

  // ---- names for imported files

  function Numbered(stem: string, n: nat): string { if n == 1 then stem else stem + "_" + NatText(n) }

  /** A file's own table, or nobody's name. */
  predicate NameFits(catalog: map<string, Kind>, origins: map<string, Origin>, path: string, name: string)
  {
    (name in origins && origins[name] == File(path)) || name !in catalog
  }

  /** The stem, or else the stem with the first number from 2 on, that is free or the file's. */
  ghost predicate IsFirstFit(catalog: map<string, Kind>, origins: map<string, Origin>, stem: string, path: string,
                             name: string)
  {
    && (name !in catalog || (name in origins && origins[name] == File(path)))
    && exists n: nat ::
         && n >= 1 && name == (if n == 1 then stem else stem + "_" + NatText(n))
         && forall m: nat :: 1 <= m < n ==>
              var other := if m == 1 then stem else stem + "_" + NatText(m);
              other in catalog && !(other in origins && origins[other] == File(path))
  }

  lemma FirstFit(catalog: map<string, Kind>, origins: map<string, Origin>, stem: string, path: string, n: nat)
    requires n >= 1 && NameFits(catalog, origins, path, Numbered(stem, n))
    requires forall m: nat {:trigger Numbered(stem, m)} ::
               1 <= m < n ==> !NameFits(catalog, origins, path, Numbered(stem, m))
    ensures IsFirstFit(catalog, origins, stem, path, Numbered(stem, n))
  {
    assert Numbered(stem, n) == if n == 1 then stem else stem + "_" + NatText(n);
    forall m: nat | 1 <= m < n
      ensures var other := if m == 1 then stem else stem + "_" + NatText(m);
              other in catalog && !(other in origins && origins[other] == File(path))
    {
      assert !NameFits(catalog, origins, path, Numbered(stem, m));
    }
  }

  lemma NumberedDistinct(stem: string, m: nat, n: nat)
    requires m >= 1 && n >= 1 && m != n
    ensures Numbered(stem, m) != Numbered(stem, n)
  {
    NatRoundTrip(m);
    NatRoundTrip(n);
    assert m > 1 ==> Numbered(stem, m)[|stem| + 1..] == NatText(m);
    assert n > 1 ==> Numbered(stem, n)[|stem| + 1..] == NatText(n);
  }

  method TableNameFor(catalog: map<string, Kind>, origins: map<string, Origin>, stem: string, path: string)
    returns (name: string)
    ensures IsFirstFit(catalog, origins, stem, path, name)
  {
    var n: nat := 1;
    ghost var tried: set<string> := {};
    while true
      invariant n >= 1 && tried <= catalog.Keys
      invariant forall m: nat {:trigger Numbered(stem, m)} ::
                  1 <= m < n ==> !NameFits(catalog, origins, path, Numbered(stem, m))
      invariant forall t <- tried :: exists m: nat :: 1 <= m < n && t == Numbered(stem, m)
      decreases catalog.Keys - tried
    {
      name := if n == 1 then stem else stem + "_" + NatText(n);
      if (name in origins && origins[name] == File(path)) || name !in catalog {
        FirstFit(catalog, origins, stem, path, n);
        return;
      }
      forall m: nat | 1 <= m < n
        ensures Numbered(stem, m) != name
      {
        NumberedDistinct(stem, m, n);
      }
      assert name !in tried && name == Numbered(stem, n);
      tried := tried + {name};
      n := n + 1;
    }
  }

  // ---- memory and disk agree

  /** The rows record the local part of the maps, and nothing else, for things that exist. */
  ghost predicate Synced(s: Store)
  {
    && (forall n :: n in s.rows <==> n in s.origins && !s.origins[n].Attached?)
    && (forall n <- s.rows :: n in s.catalog && s.rows[n].origin == s.origins[n])
    && (forall n <- s.rows :: s.rows[n].read == if n in s.fileReads then Some(s.fileReads[n]) else None)
    && s.fileReads.Keys <= s.rows.Keys
  }

  /** Attached tables and local ones share no names; a made table has a derivation; a file
      read is set for a table that is recorded. */
  predicate Proper(s: Store, op: Op)
  {
    match op
    case RegisterFile(name, _, _) => Local(s, name)
    case RegisterFileAsTable(name, _, _) => Local(s, name)
    case CreateTable(name, origin) => Local(s, name) && origin.Derived?
    case DropTable(name) => Local(s, name)
    case RenameTable(name, to) => Local(s, name) && Local(s, to)
    case SetFileRead(name, _) => name in s.rows
    case Attach(_, _, names) => names !! s.catalog.Keys && names !! s.rows.Keys
    case Detach(_) => true
  }

  predicate Local(s: Store, name: string) { name in s.origins ==> !s.origins[name].Attached? }

  lemma NextKeepsSynced(s: Store, op: Op)
    requires Synced(s) && Proper(s, op)
    ensures Synced(Next(s, op))
  {
    match op
    case RenameTable(name, to) => RenameKeepsSynced(s, name, to);
    case Attach(alias, source, names) => AttachKeepsSynced(s, alias, source, names);
    case _ =>
  }

  lemma RenameKeepsSynced(s: Store, name: string, to: string)
    requires Synced(s) && Proper(s, RenameTable(name, to))
    ensures Synced(Next(s, RenameTable(name, to)))
  {
  }

  lemma AttachKeepsSynced(s: Store, alias: string, source: string, names: set<string>)
    requires Synced(s) && Proper(s, Attach(alias, source, names))
    ensures Synced(Next(s, Attach(alias, source, names)))
  {
  }

  /** A file read set for a table without a row is remembered and not recorded: memory and
      disk agree afterwards exactly when the table is recorded. */
  lemma SetFileReadSyncedIff(s: Store, name: string, read: FileRead)
    requires Synced(s)
    ensures Synced(Next(s, SetFileRead(name, read))) <==> name in s.rows
  {
    var s' := Next(s, SetFileRead(name, read));
    assert name in s'.fileReads;
    if name in s.rows {
      NextKeepsSynced(s, SetFileRead(name, read));
    }
  }

  /** What is not attached, of what the engine knows. */
  function LocalOrigins(s: Store): map<string, Origin>
  {
    map n | n in s.origins && !s.origins[n].Attached? :: s.origins[n]
  }

  lemma ReopenRestores(s: Store)
    requires Synced(s)
    ensures Synced(Reopened(s))
    ensures Reopened(s).origins == LocalOrigins(s) && Reopened(s).fileReads == s.fileReads
    ensures Reopened(s).rows == s.rows && Reopened(s).catalog == s.catalog
  {
  }

  function Run(s: Store, ops: seq<Op>): Store
  {
    if ops == [] then s else Next(Run(s, ops[..|ops| - 1]), ops[|ops| - 1])
  }

  /** Over every run of proper operations, closing the database and opening it again gives
      back just what was known of the local tables. */
  lemma {:induction false} RunThenReopen(s: Store, ops: seq<Op>)
    requires Synced(s)
    requires forall i :: 0 <= i < |ops| ==> Proper(Run(s, ops[..i]), ops[i])
    ensures Synced(Run(s, ops))
    ensures Reopened(Run(s, ops)).origins == LocalOrigins(Run(s, ops))
            && Reopened(Run(s, ops)).fileReads == Run(s, ops).fileReads
  {
    if ops != [] {
      var init := ops[..|ops| - 1];
      forall i | 0 <= i < |init|
        ensures Proper(Run(s, init[..i]), init[i])
      {
        assert init[..i] == ops[..i];
      }
      RunThenReopen(s, init);
      NextKeepsSynced(Run(s, init), ops[|ops| - 1]);
    }
    ReopenRestores(Run(s, ops));
  }

  // ---- what a name is known by

  lemma ReopenedIs(s: Store)
    ensures forall n :: At(Reopened(s), n) ==
              if n !in s.catalog then NOTHING
              else if n !in s.rows then NOTHING.(kind := Some(s.catalog[n]))
              else Entry(Some(s.catalog[n]), if s.rows[n].origin.Attached? then None else Some(s.rows[n].origin),
                         Some(s.rows[n]), s.rows[n].read)
  {
  }

  lemma AttachIs(s: Store, alias: string, source: string, names: set<string>)
    ensures var s' := Next(s, Attach(alias, source, names));
            && (forall n <- names :: At(s', n) == At(s, n).(origin := Some(Attached(alias, source))))
            && OthersStay(s, s', names)
  {
  }

  /** A table takes all that is known of it to its new name, and leaves nothing behind. */
  lemma RenameCarries(s: Store, name: string, to: string)
    requires Synced(s) && to !in s.origins
    requires At(s, name).kind == Some(Table) && At(s, to).kind == None
    ensures var s' := Next(s, RenameTable(name, to));
            At(s', to) == At(s, name) && At(s', name) == NOTHING && OthersStay(s, s', {name, to})
  {
  }

  /** Detaching undoes attaching. */
  lemma DetachUndoesAttach(s: Store, alias: string, source: string, names: set<string>)
    requires names !! s.origins.Keys && forall n <- s.origins :: s.origins[n].Attached? ==> s.origins[n].alias != alias
    ensures Next(Next(s, Attach(alias, source, names)), Detach(alias)) == s
  {
    var there := Next(s, Attach(alias, source, names));
    assert forall n :: n in Next(there, Detach(alias)).origins <==> n in s.origins;
  }

  // ---- an import, and what it replaces

  predicate IsFrom(s: Store, name: string, path: string) { name in s.origins && s.origins[name] == File(path) }

  /** Whatever goes by a name is the thing it was. */
  predicate Untouched(s: Store, s': Store, name: string)
  {
    && (name in s.catalog <==> name in s'.catalog) && (name in s.catalog ==> s'.catalog[name] == s.catalog[name])
    && (name in s.origins <==> name in s'.origins) && (name in s.origins ==> s'.origins[name] == s.origins[name])
    && (name in s.rows <==> name in s'.rows) && (name in s.rows ==> s'.rows[name] == s.rows[name])
  }

  /** An import leaves alone whatever is not, as it is made, the file's own. */
  ghost predicate ReplacesOnlyItsOwn(s: Store, name: string, path: string, read: FileRead)
  {
    forall other <- s.catalog ::
      !IsFrom(s, other, path) ==> Untouched(s, Next(s, RegisterFileAsTable(name, path, read)), other)
  }

  /** An import whose name was chosen by origins known earlier: it replaces only its own table, or
      is refused, exactly when the name is free or what was known of it still holds. */
  lemma ImportReplacesOnlyItsOwnIff(s: Store, known: map<string, Origin>, name: string, path: string, read: FileRead)
    requires NameFits(s.catalog, known, path, name) && Allowed(s, RegisterFileAsTable(name, path, read))
    ensures name in s.catalog ==> name in known && known[name] == File(path)
    ensures ReplacesOnlyItsOwn(s, name, path, read) <==> name !in s.catalog || IsFrom(s, name, path)
  {
    var s' := Next(s, RegisterFileAsTable(name, path, read));
    if name in s.catalog && !IsFrom(s, name, path) {
      assert !Untouched(s, s', name);
    }
  }

  /** The operation makes, drops, renames or attaches something by that name. */
  predicate Concerns(op: Op, name: string)
  {
    match op
    case RegisterFile(n, _, _) => n == name
    case RegisterFileAsTable(n, _, _) => n == name
    case CreateTable(n, _) => n == name
    case DropTable(n) => n == name
    case RenameTable(n, to) => n == name || to == name
    case SetFileRead(_, _) => false
    case Attach(_, _, names) => name in names
    case Detach(_) => false
  }

  lemma {:induction false} StaysFrom(s: Store, ops: seq<Op>, name: string, path: string)
    requires IsFrom(s, name, path) && forall op <- ops :: !Concerns(op, name)
    ensures IsFrom(Run(s, ops), name, path)
  {
    if ops != [] {
      var init, last := ops[..|ops| - 1], ops[|ops| - 1];
      assert last in ops && forall op <- init :: op in ops;
      StaysFrom(s, init, name, path);
    }
  }

  /** So an import is safe when nothing that it may replace is concerned, from the moment it takes
      the origins to the moment it has the connection. */
  lemma QuietImportReplacesOnlyItsOwn(s: Store, between: seq<Op>, name: string, path: string, read: FileRead)
    requires NameFits(Run(s, between).catalog, s.origins, path, name)
    requires name in Run(s, between).catalog ==> forall op <- between :: !Concerns(op, name)
    ensures ReplacesOnlyItsOwn(Run(s, between), name, path, read)
  {
    var t := Run(s, between);
    if name in t.catalog {
      StaysFrom(s, between, name, path);
    }
    if Allowed(t, RegisterFileAsTable(name, path, read)) {
      ImportReplacesOnlyItsOwnIff(t, s.origins, name, path, read);
    }
  }

  /** And it is not when the file's table is dropped in that time and another of its name made:
      the import takes that for the file's own. */
  lemma StaleImportReplacesAnother(s: Store, path: string, read: FileRead)
    requires "data" in s.catalog && s.catalog["data"].Table? && IsFrom(s, "data", path)
    ensures var t := Run(s, [DropTable("data"), CreateTable("data", Derived("q"))]);
            && NameFits(t.catalog, s.origins, path, Numbered("data", 1))
            && "data" in t.origins && t.origins["data"] == Derived("q")
            && !ReplacesOnlyItsOwn(t, "data", path, read)
  {
    var ops := [DropTable("data"), CreateTable("data", Derived("q"))];
    assert ops[..1] == [DropTable("data")] && ops[..1][..0] == [];
    assert Run(s, ops[..1]) == Next(s, DropTable("data"));
    var t := Run(s, ops);
    assert t == Next(Next(s, DropTable("data")), CreateTable("data", Derived("q")));
    ImportReplacesOnlyItsOwnIff(t, s.origins, "data", path, read);
  }
}

/** Dropping and renaming the columns of an imported table (import_flow.rs): one ALTER at a
    time, through placeholder names, so that names may be swapped. */
module ColumnShape {

  import opened Wrappers
  import opened Decimal

  datatype Column<D> = Column(name: string, data: D)

  /** What becomes of a source column: its new name, or nothing. */
  datatype Entry = Entry(source: string, kept: Option<string>)

  datatype Renaming = Renaming(source: string, name: string)

  datatype Alter = Drop(name: string) | Rename(from: string, to: string)

  /** A table after some ALTERs, and whether all of them went through. */
  datatype Outcome<D> = Outcome(columns: seq<Column<D>>, ok: bool)

  // ---- tables, and one ALTER

  function Names<D>(columns: seq<Column<D>>): set<string> { set i | 0 <= i < |columns| :: columns[i].name }

  ghost predicate UniqueNames<D>(columns: seq<Column<D>>)
  {
    forall i, j :: 0 <= i < j < |columns| ==> columns[i].name != columns[j].name
  }

  function WithoutAll<D>(columns: seq<Column<D>>, names: seq<string>): seq<Column<D>>
  {
    if columns == [] then []
    else (if columns[0].name in names then [] else [columns[0]]) + WithoutAll(columns[1..], names)
  }

  function Relabelled<D>(columns: seq<Column<D>>, naming: string -> string): seq<Column<D>>
  {
    seq(|columns|, i requires 0 <= i < |columns| => Column(naming(columns[i].name), columns[i].data))
  }

  function Renamed<D>(columns: seq<Column<D>>, from: string, to: string): seq<Column<D>>
  {
    Relabelled(columns, n => if n == from then to else n)
  }

  /** DROP COLUMN needs the column and another one; RENAME COLUMN, the column and a free name. */
  predicate Allowed<D>(columns: seq<Column<D>>, alter: Alter)
  {
    match alter
    case Drop(name) => name in Names(columns) && |columns| > 1
    case Rename(from, to) => from in Names(columns) && to !in Names(columns)
  }

  function Altered<D>(columns: seq<Column<D>>, alter: Alter): seq<Column<D>>
  {
    match alter
    case Drop(name) => WithoutAll(columns, [name])
    case Rename(from, to) => Renamed(columns, from, to)
  }

  /** The ALTERs one after another, up to the first that is refused. */
  function Run<D>(columns: seq<Column<D>>, alters: seq<Alter>): Outcome<D>
  {
    if alters == [] then Outcome(columns, true)
    else
      var done, alter := Run(columns, alters[..|alters| - 1]), alters[|alters| - 1];
      if done.ok && Allowed(done.columns, alter) then Outcome(Altered(done.columns, alter), true)
      else Outcome(done.columns, false)
  }

  // ---- the shape, and the ALTERs made for it

  function Dropped(shape: seq<Entry>): seq<string>
  {
    if shape == [] then []
    else Dropped(shape[..|shape| - 1]) + (if shape[|shape| - 1].kept.None? then [shape[|shape| - 1].source] else [])
  }

  function Renamings(shape: seq<Entry>): seq<Renaming>
  {
    if shape == [] then []
    else
      var last := shape[|shape| - 1];
      Renamings(shape[..|shape| - 1])
      + (if last.kept.Some? && last.source != last.kept.value then [Renaming(last.source, last.kept.value)] else [])
  }

  function Placeholder(i: nat): string { "__dat0_wizard_" + NatText(i) }

  predicate IsPlaceholder(name: string) { |name| > 14 && name[..14] == "__dat0_wizard_" && IsNatText(name[14..]) }

  function Drops(dropped: seq<string>): seq<Alter> { seq(|dropped|, i requires 0 <= i < |dropped| => Drop(dropped[i])) }

  function Places(renamed: seq<Renaming>): seq<Alter>
  {
    seq(|renamed|, i requires 0 <= i < |renamed| => Rename(renamed[i].source, Placeholder(i)))
  }

  function Finals(renamed: seq<Renaming>): seq<Alter>
  {
    seq(|renamed|, i requires 0 <= i < |renamed| => Rename(Placeholder(i), renamed[i].name))
  }

  function Statements(shape: seq<Entry>): seq<Alter>
  {
    Drops(Dropped(shape)) + Places(Renamings(shape)) + Finals(Renamings(shape))
  }

  // ---- what the shape means

  /** The name a column is kept under. One the shape does not mention keeps its own. */
  function Target(shape: seq<Entry>, name: string): Option<string>
  {
    if shape == [] then Some(name) else if shape[0].source == name then shape[0].kept else Target(shape[1..], name)
  }

  /** The shape applied at once: each kept column under its new name, where it was. */
  function Shaped<D>(columns: seq<Column<D>>, shape: seq<Entry>): seq<Column<D>>
  {
    if columns == [] then []
    else
      (match Target(shape, columns[0].name)
       case Some(name) => [Column(name, columns[0].data)]
       case None => [])
      + Shaped(columns[1..], shape)
  }

  predicate DistinctSources(shape: seq<Entry>)
  {
    forall i, j :: 0 <= i < j < |shape| ==> shape[i].source != shape[j].source
  }

  /** The shape mentions no column twice, and nothing is called as a placeholder is. It may be one
      for an earlier state of the table. */
  ghost predicate IsFor<D>(shape: seq<Entry>, columns: seq<Column<D>>)
  {
    && UniqueNames(columns)
    && DistinctSources(shape)
    && (forall n <- Names(columns) :: !IsPlaceholder(n))
    && (forall e <- shape :: !IsPlaceholder(e.source) && (e.kept.Some? ==> !IsPlaceholder(e.kept.value)))
  }

  /** The entry drops or renames its column. */
  predicate Acts(e: Entry) { e.kept != Some(e.source) }

  /** What is to be dropped or renamed is there. */
  ghost predicate SourcesExist<D>(shape: seq<Entry>, columns: seq<Column<D>>)
  {
    forall e <- shape :: Acts(e) ==> e.source in Names(columns)
  }

  class ImportedTable<D> {
    var columns: seq<Column<D>>

    constructor (columns: seq<Column<D>>)
      ensures this.columns == columns
    {
      this.columns := columns;
    }

    method Execute(alter: Alter) returns (ok: bool)
      modifies this
      ensures ok <==> Allowed(old(columns), alter)
      ensures columns == if ok then Altered(old(columns), alter) else old(columns)
    {
      ok := Allowed(columns, alter);
      if ok {
        columns := Altered(columns, alter);
      }
    }

    method DropColumns(dropped: seq<string>) returns (ok: bool)
      modifies this
      ensures Outcome(columns, ok) == Run(old(columns), Drops(dropped))
    {
      for i := 0 to |dropped|
        invariant Run(old(columns), Drops(dropped)[..i]) == Outcome(columns, true)
      {
        NextOfRun(old(columns), Drops(dropped), i);
        ok := Execute(Drop(dropped[i]));
        if !ok {
          return;
        }
      }
      assert Drops(dropped)[..|dropped|] == Drops(dropped);
      ok := true;
    }

    method RenameToPlaceholders(renamed: seq<Renaming>) returns (ok: bool)
      modifies this
      ensures Outcome(columns, ok) == Run(old(columns), Places(renamed))
    {
      for i := 0 to |renamed|
        invariant Run(old(columns), Places(renamed)[..i]) == Outcome(columns, true)
      {
        NextOfRun(old(columns), Places(renamed), i);
        ok := Execute(Rename(renamed[i].source, Placeholder(i)));
        if !ok {
          return;
        }
      }
      assert Places(renamed)[..|renamed|] == Places(renamed);
      ok := true;
    }

    method RenameToNames(renamed: seq<Renaming>) returns (ok: bool)
      modifies this
      ensures Outcome(columns, ok) == Run(old(columns), Finals(renamed))
    {
      for i := 0 to |renamed|
        invariant Run(old(columns), Finals(renamed)[..i]) == Outcome(columns, true)
      {
        NextOfRun(old(columns), Finals(renamed), i);
        ok := Execute(Rename(Placeholder(i), renamed[i].name));
        if !ok {
          return;
        }
      }
      assert Finals(renamed)[..|renamed|] == Finals(renamed);
      ok := true;
    }

    /** Drop, then rename to placeholders, then to the names wanted, until one fails. */
    method ApplyShape(shape: seq<Entry>) returns (ok: bool)
      modifies this
      ensures Outcome(columns, ok) == Run(old(columns), Statements(shape))
    {
      var renamed := Renamings(shape);
      RunsCompose(columns, Drops(Dropped(shape)) + Places(renamed), Finals(renamed));
      RunsCompose(columns, Drops(Dropped(shape)), Places(renamed));
      ok := DropColumns(Dropped(shape));
      if ok {
        ok := RenameToPlaceholders(renamed);
      }
      if ok {
        ok := RenameToNames(renamed);
      }
    }
  }

  lemma RunLast<D>(columns: seq<Column<D>>, alters: seq<Alter>, alter: Alter)
    ensures var done := Run(columns, alters);
            Run(columns, alters + [alter])
            == if done.ok && Allowed(done.columns, alter) then Outcome(Altered(done.columns, alter), true)
               else Outcome(done.columns, false)
  {
    assert (alters + [alter])[..|alters|] == alters;
  }

  /** One more ALTER of a run; and a run stays where it stopped. */
  lemma NextOfRun<D>(columns: seq<Column<D>>, alters: seq<Alter>, k: nat)
    requires k < |alters| && Run(columns, alters[..k]).ok
    ensures var now := Run(columns, alters[..k]).columns;
            && (Allowed(now, alters[k]) ==> Run(columns, alters[..k + 1]) == Outcome(Altered(now, alters[k]), true))
            && (!Allowed(now, alters[k]) ==> Run(columns, alters) == Outcome(now, false))
  {
    assert alters[..k + 1][..k] == alters[..k];
    if !Allowed(Run(columns, alters[..k]).columns, alters[k]) {
      StoppedStays(columns, alters, k + 1);
    }
  }

  lemma {:induction false} StoppedStays<D>(columns: seq<Column<D>>, alters: seq<Alter>, k: nat)
    requires k <= |alters| && !Run(columns, alters[..k]).ok
    ensures Run(columns, alters) == Run(columns, alters[..k])
  {
    if k == |alters| {
      assert alters[..k] == alters;
    } else {
      assert alters[..|alters| - 1][..k] == alters[..k];
      StoppedStays(columns, alters[..|alters| - 1], k);
    }
  }

  // ---- at every step

  lemma {:induction false} WithoutAllHas<D>(columns: seq<Column<D>>, names: seq<string>, c: Column<D>)
    ensures c in WithoutAll(columns, names) <==> c in columns && c.name !in names
  {
    if columns != [] {
      assert columns == [columns[0]] + columns[1..];
      WithoutAllHas(columns[1..], names, c);
    }
  }

  lemma {:induction false} WithoutAllUnique<D>(columns: seq<Column<D>>, names: seq<string>)
    requires UniqueNames(columns)
    ensures UniqueNames(WithoutAll(columns, names))
  {
    if columns != [] {
      WithoutAllUnique(columns[1..], names);
      var rest := WithoutAll(columns[1..], names);
      forall j | 0 <= j < |rest|
        ensures rest[j].name != columns[0].name
      {
        WithoutAllHas(columns[1..], names, rest[j]);
      }
    }
  }

  /** Whatever the ALTERs, no two columns are ever called the same. */
  lemma {:induction false} NamesStayUnique<D>(columns: seq<Column<D>>, alters: seq<Alter>)
    requires UniqueNames(columns)
    ensures UniqueNames(Run(columns, alters).columns)
  {
    if alters != [] {
      NamesStayUnique(columns, alters[..|alters| - 1]);
      var now, alter := Run(columns, alters[..|alters| - 1]).columns, alters[|alters| - 1];
      if alter.Drop? {
        WithoutAllUnique(now, [alter.name]);
      }
    }
  }

  // ---- what the shape asks for

  lemma {:induction false} TargetOf(shape: seq<Entry>, name: string)
    requires DistinctSources(shape)
    ensures forall e <- shape :: e.source == name ==> Target(shape, name) == e.kept
    ensures (forall e <- shape :: e.source != name) ==> Target(shape, name) == Some(name)
  {
    if shape != [] {
      assert shape == [shape[0]] + shape[1..];
      TargetOf(shape[1..], name);
    }
  }

  lemma {:induction false} DroppedAre(shape: seq<Entry>)
    requires DistinctSources(shape)
    ensures forall n :: n in Dropped(shape) <==> Entry(n, None) in shape
    ensures forall i, j :: 0 <= i < j < |Dropped(shape)| ==> Dropped(shape)[i] != Dropped(shape)[j]
  {
    if shape != [] {
      var init, last := shape[..|shape| - 1], shape[|shape| - 1];
      DroppedAre(init);
      assert shape == init + [last];
      if last.kept.None? {
        assert last.source !in Dropped(init);
      }
    }
  }

  lemma {:induction false} RenamingsAre(shape: seq<Entry>)
    requires DistinctSources(shape)
    ensures forall r :: r in Renamings(shape) <==> Entry(r.source, Some(r.name)) in shape && r.source != r.name
    ensures forall i, j :: 0 <= i < j < |Renamings(shape)| ==> Renamings(shape)[i].source != Renamings(shape)[j].source
  {
    if shape != [] {
      var init, last := shape[..|shape| - 1], shape[|shape| - 1];
      RenamingsAre(init);
      assert shape == init + [last];
      forall r <- Renamings(init)
        ensures r.source != last.source
      {
        assert Entry(r.source, Some(r.name)) in init;
      }
    }
  }

  lemma SourcesApart(shape: seq<Entry>, a: Entry, b: Entry)
    requires DistinctSources(shape) && a in shape && b in shape && a.source == b.source
    ensures a == b
  {
  }

  // ---- the first pass

  lemma {:induction false} WithoutOneMore<D>(columns: seq<Column<D>>, names: seq<string>, name: string)
    ensures WithoutAll(WithoutAll(columns, names), [name]) == WithoutAll(columns, names + [name])
  {
    if columns != [] {
      WithoutOneMore(columns[1..], names, name);
      var rest := WithoutAll(columns[1..], names);
      assert [] + rest == rest && ([columns[0]] + rest)[1..] == rest;
    }
  }

  lemma {:induction false} WithoutNone<D>(columns: seq<Column<D>>)
    ensures WithoutAll(columns, []) == columns
  {
    if columns != [] {
      WithoutNone(columns[1..]);
    }
  }

  ghost predicate Droppable<D>(whole: seq<Column<D>>, dropped: seq<string>)
  {
    && UniqueNames(whole)
    && (forall n <- dropped :: n in Names(whole))
    && (forall i, j :: 0 <= i < j < |dropped| ==> dropped[i] != dropped[j])
  }

  /** One more drop: refused exactly when it would leave nothing. */
  lemma NextDrops<D>(whole: seq<Column<D>>, names: seq<string>, name: string)
    requires Droppable(whole, names + [name])
    ensures var now, next := WithoutAll(whole, names), WithoutAll(whole, names + [name]);
            && now != [] && Altered(now, Drop(name)) == next
            && (Allowed(now, Drop(name)) <==> next != [])
  {
    var now := WithoutAll(whole, names);
    WithoutOneMore(whole, names, name);
    assert name in names + [name];
    assert name !in names by {
      assert (names + [name])[|names|] == name;
      assert forall i :: 0 <= i < |names| ==> (names + [name])[i] == names[i];
    }
    var d :| d in whole && d.name == name;
    WithoutAllHas(whole, names, d);
    WithoutAllUnique(whole, names);
    if |now| > 1 {
      var other := if now[0] == d then now[1] else now[0];
      WithoutAllHas(now, [name], other);
    } else {
      assert now == [d];
      assert WithoutAll([d], [name]) == [];
    }
  }

  lemma DroppedFit<D>(whole: seq<Column<D>>, shape: seq<Entry>)
    requires IsFor(shape, whole) && SourcesExist(shape, whole)
    ensures Droppable(whole, Dropped(shape))
  {
    DroppedAre(shape);
    forall n <- Dropped(shape)
      ensures n in Names(whole)
    {
      assert Entry(n, None) in shape;
    }
  }

  lemma DroppableInit<D>(whole: seq<Column<D>>, names: seq<string>, name: string)
    requires Droppable(whole, names + [name])
    ensures Droppable(whole, names)
  {
    assert forall n <- names :: n in names + [name];
    assert forall i :: 0 <= i < |names| ==> (names + [name])[i] == names[i];
  }

  /** The drops leave the columns kept, unless that is none. */
  lemma {:induction false} DropsRun<D>(whole: seq<Column<D>>, dropped: seq<string>)
    requires Droppable(whole, dropped)
    ensures var now, kept := Run(whole, Drops(dropped)), WithoutAll(whole, dropped);
            && (now.ok <==> dropped == [] || kept != [])
            && (now.ok ==> now.columns == kept)
  {
    if dropped == [] {
      WithoutNone(whole);
    } else {
      var init, last := dropped[..|dropped| - 1], dropped[|dropped| - 1];
      assert dropped == init + [last];
      assert Drops(dropped) == Drops(init) + [Drop(last)];
      DroppableInit(whole, init, last);
      DropsRun(whole, init);
      NextDrops(whole, init, last);
      RunLast(whole, Drops(init), Drop(last));
    }
  }

  // ---- the second and the third

  /** Where `name` is among the renamed columns, or past their end. */
  function IndexOf(renamed: seq<Renaming>, name: string): nat
  {
    if renamed == [] then 0 else if renamed[0].source == name then 0 else 1 + IndexOf(renamed[1..], name)
  }

  /** What a column is called once `i` columns have their placeholder and `j` their final name. */
  function Label(renamed: seq<Renaming>, i: nat, j: nat, name: string): string
  {
    var k := IndexOf(renamed, name);
    if k < |renamed| && k < j then renamed[k].name else if k < |renamed| && k < i then Placeholder(k) else name
  }

  function Labels(renamed: seq<Renaming>, i: nat, j: nat): string -> string { n => Label(renamed, i, j, n) }

  /** What renaming relies on. */
  ghost predicate Renames<D>(renamed: seq<Renaming>, kept: seq<Column<D>>)
  {
    && (forall i, j :: 0 <= i < j < |renamed| ==> renamed[i].source != renamed[j].source)
    && (forall r <- renamed :: r.source in Names(kept) && !IsPlaceholder(r.name))
    && (forall n <- Names(kept) :: !IsPlaceholder(n))
  }

  lemma {:induction false} IndexOfIs(renamed: seq<Renaming>, name: string)
    ensures IndexOf(renamed, name) <= |renamed|
    ensures IndexOf(renamed, name) < |renamed| ==> renamed[IndexOf(renamed, name)].source == name
    ensures IndexOf(renamed, name) == |renamed| ==> forall r <- renamed :: r.source != name
  {
    if renamed != [] {
      assert renamed == [renamed[0]] + renamed[1..];
      IndexOfIs(renamed[1..], name);
    }
  }

  lemma PlaceholdersApart(i: nat, j: nat)
    ensures IsPlaceholder(Placeholder(i))
    ensures Placeholder(i) == Placeholder(j) ==> i == j
  {
    assert Placeholder(i)[14..] == NatText(i) && Placeholder(j)[14..] == NatText(j);
    NatRoundTrip(i);
    NatRoundTrip(j);
  }

  /** Only the k-th renamed column is ever called by the k-th placeholder, and only once its turn
      has come and until its last has. */
  lemma HasPlaceholder<D>(kept: seq<Column<D>>, renamed: seq<Renaming>, i: nat, j: nat, k: nat, n: string)
    requires Renames(renamed, kept) && i <= |renamed| && k < |renamed| && n in Names(kept)
    ensures Label(renamed, i, j, n) == Placeholder(k) <==> n == renamed[k].source && j <= k < i
    ensures IndexOf(renamed, n) == k <==> n == renamed[k].source
  {
    var a := IndexOf(renamed, n);
    IndexOfIs(renamed, n);
    PlaceholdersApart(k, a);
    assert renamed[k] in renamed;
    if a < |renamed| {
      PlaceholdersApart(a, k);
      assert renamed[a] in renamed;
    }
  }

  lemma RelabelledName<D>(kept: seq<Column<D>>, naming: string -> string, name: string)
    ensures name in Names(Relabelled(kept, naming)) <==> exists n <- Names(kept) :: naming(n) == name
  {
    var now := Relabelled(kept, naming);
    forall i | 0 <= i < |kept|
      ensures now[i].name == naming(kept[i].name) && kept[i].name in Names(kept)
    {
    }
    if n :| n in Names(kept) && naming(n) == name {
      var i :| 0 <= i < |kept| && kept[i].name == n;
      assert now[i].name == name;
    }
  }

  lemma RenameStep<D>(columns: seq<Column<D>>, f: string -> string, g: string -> string, from: string, to: string)
    requires forall n <- Names(columns) :: g(n) == if f(n) == from then to else f(n)
    ensures Renamed(Relabelled(columns, f), from, to) == Relabelled(columns, g)
  {
    forall i | 0 <= i < |columns|
      ensures Renamed(Relabelled(columns, f), from, to)[i] == Relabelled(columns, g)[i]
    {
      assert columns[i].name in Names(columns);
    }
  }

  /** A source takes its placeholder, which is never refused. */
  lemma NextPlaces<D>(kept: seq<Column<D>>, renamed: seq<Renaming>, i: nat)
    requires Renames(renamed, kept) && i < |renamed|
    ensures var now, alter := Relabelled(kept, Labels(renamed, i, 0)), Rename(renamed[i].source, Placeholder(i));
            Allowed(now, alter) && Altered(now, alter) == Relabelled(kept, Labels(renamed, i + 1, 0))
  {
    var s, f := renamed[i].source, Labels(renamed, i, 0);
    assert renamed[i] in renamed;
    forall n <- Names(kept)
      ensures f(n) != Placeholder(i)
      ensures f(n) == s <==> n == s
      ensures Label(renamed, i + 1, 0, n) == if f(n) == s then Placeholder(i) else f(n)
    {
      HasPlaceholder(kept, renamed, i, 0, i, n);
      IndexOfIs(renamed, n);
      if IndexOf(renamed, n) < i {
        PlaceholdersApart(IndexOf(renamed, n), i);
      }
    }
    assert f(s) == s;
    RelabelledName(kept, f, s);
    RelabelledName(kept, f, Placeholder(i));
    RenameStep(kept, f, Labels(renamed, i + 1, 0), s, Placeholder(i));
  }

  /** A placeholder takes the name wanted, or another column has that name for good. */
  lemma NextNames<D>(kept: seq<Column<D>>, renamed: seq<Renaming>, j: nat)
    requires UniqueNames(kept) && Renames(renamed, kept) && j < |renamed|
    ensures var now, alter := Relabelled(kept, Labels(renamed, |renamed|, j)), Rename(Placeholder(j), renamed[j].name);
            if Allowed(now, alter) then Altered(now, alter) == Relabelled(kept, Labels(renamed, |renamed|, j + 1))
            else !UniqueNames(Relabelled(kept, Labels(renamed, |renamed|, |renamed|)))
  {
    var s, to, f := renamed[j].source, renamed[j].name, Labels(renamed, |renamed|, j);
    assert renamed[j] in renamed;
    forall n <- Names(kept)
      ensures f(n) == Placeholder(j) <==> n == s
      ensures Label(renamed, |renamed|, j + 1, n) == if n == s then to else f(n)
    {
      HasPlaceholder(kept, renamed, |renamed|, j, j, n);
      IndexOfIs(renamed, n);
    }
    assert f(s) == Placeholder(j);
    RelabelledName(kept, f, Placeholder(j));
    RelabelledName(kept, f, to);
    if to !in Names(Relabelled(kept, f)) {
      RenameStep(kept, f, Labels(renamed, |renamed|, j + 1), Placeholder(j), to);
    } else {
      var n :| n in Names(kept) && f(n) == to;
      NamedForGood(kept, renamed, j, n);
    }
  }

  lemma NamedForGood<D>(kept: seq<Column<D>>, renamed: seq<Renaming>, j: nat, n: string)
    requires Renames(renamed, kept) && j < |renamed|
    requires n in Names(kept) && Label(renamed, |renamed|, j, n) == renamed[j].name
    ensures !UniqueNames(Relabelled(kept, Labels(renamed, |renamed|, |renamed|)))
  {
    var s, last := renamed[j].source, Relabelled(kept, Labels(renamed, |renamed|, |renamed|));
    assert renamed[j] in renamed;
    HasPlaceholder(kept, renamed, |renamed|, j, j, n);
    HasPlaceholder(kept, renamed, |renamed|, j, j, s);
    IndexOfIs(renamed, n);
    PlaceholdersApart(IndexOf(renamed, n), j);
    PlaceholdersApart(j, j);
    var x :| 0 <= x < |kept| && kept[x].name == n;
    var y :| 0 <= y < |kept| && kept[y].name == s;
    assert last[x].name == renamed[j].name == last[y].name && x != y;
  }

  /** After the drops, the placeholders; then the names, unless two would be the same. */
  lemma {:induction false} PlacesRun<D>(kept: seq<Column<D>>, renamed: seq<Renaming>, i: nat)
    requires Renames(renamed, kept) && i <= |renamed|
    ensures Run(kept, Places(renamed)[..i]) == Outcome(Relabelled(kept, Labels(renamed, i, 0)), true)
  {
    if i == 0 {
      forall k | 0 <= k < |kept|
        ensures Relabelled(kept, Labels(renamed, 0, 0))[k] == kept[k]
      {
      }
    } else {
      PlacesRun(kept, renamed, i - 1);
      NextPlaces(kept, renamed, i - 1);
      NextOfRun(kept, Places(renamed), i - 1);
    }
  }

  lemma {:induction false} FinalsRun<D>(kept: seq<Column<D>>, renamed: seq<Renaming>, j: nat)
    requires UniqueNames(kept) && Renames(renamed, kept) && j <= |renamed|
    ensures var placed := Relabelled(kept, Labels(renamed, |renamed|, 0));
            var now := Run(placed, Finals(renamed)[..j]);
            if now.ok then now.columns == Relabelled(kept, Labels(renamed, |renamed|, j))
            else !UniqueNames(Relabelled(kept, Labels(renamed, |renamed|, |renamed|)))
  {
    if j > 0 {
      var placed, all := Relabelled(kept, Labels(renamed, |renamed|, 0)), Finals(renamed);
      FinalsRun(kept, renamed, j - 1);
      NextNames(kept, renamed, j - 1);
      assert all[..j][..j - 1] == all[..j - 1];
    }
  }

  // ---- the three together

  lemma {:induction false} RunsCompose<D>(columns: seq<Column<D>>, first: seq<Alter>, second: seq<Alter>)
    ensures var done := Run(columns, first);
            Run(columns, first + second) == if done.ok then Run(done.columns, second) else done
  {
    if second == [] {
      assert first + second == first;
    } else {
      RunsCompose(columns, first, second[..|second| - 1]);
      assert (first + second)[..|first + second| - 1] == first + second[..|second| - 1];
    }
  }

  lemma RenamingsFit<D>(whole: seq<Column<D>>, shape: seq<Entry>)
    requires IsFor(shape, whole) && SourcesExist(shape, whole)
    ensures Renames(Renamings(shape), WithoutAll(whole, Dropped(shape)))
  {
    var kept := WithoutAll(whole, Dropped(shape));
    DroppedAre(shape);
    RenamingsAre(shape);
    forall r <- Renamings(shape)
      ensures r.source in Names(kept) && !IsPlaceholder(r.name)
    {
      var e := Entry(r.source, Some(r.name));
      assert e in shape;
      var c :| c in whole && c.name == r.source;
      if Entry(r.source, None) in shape {
        SourcesApart(shape, e, Entry(r.source, None));
      }
      WithoutAllHas(whole, Dropped(shape), c);
    }
    forall n <- Names(kept)
      ensures !IsPlaceholder(n)
    {
      var c :| c in kept && c.name == n;
      WithoutAllHas(whole, Dropped(shape), c);
      assert c in whole;
      assert n in Names(whole);
    }
  }

  lemma NotRenamed(shape: seq<Entry>, e: Entry)
    requires DistinctSources(shape) && e in shape
    requires forall r <- Renamings(shape) :: r.source != e.source
    ensures e.kept.Some? ==> e.kept.value == e.source
  {
    RenamingsAre(shape);
    if e.kept.Some? {
      var r := Renaming(e.source, e.kept.value);
      assert r in Renamings(shape) <==> Entry(r.source, Some(r.name)) in shape && r.source != r.name;
    }
  }

  function LastName(shape: seq<Entry>, n: string): string
  {
    Label(Renamings(shape), |Renamings(shape)|, |Renamings(shape)|, n)
  }

  lemma TargetIs(shape: seq<Entry>, n: string)
    requires DistinctSources(shape)
    ensures Target(shape, n) == if n in Dropped(shape) then None else Some(LastName(shape, n))
  {
    var renamed := Renamings(shape);
    TargetOf(shape, n);
    DroppedAre(shape);
    RenamingsAre(shape);
    IndexOfIs(renamed, n);
    var k := IndexOf(renamed, n);
    if k < |renamed| {
      assert renamed[k] in renamed;
      assert Entry(n, Some(renamed[k].name)) in shape;
      if Entry(n, None) in shape {
        SourcesApart(shape, Entry(n, None), Entry(n, Some(renamed[k].name)));
      }
    } else if e :| e in shape && e.source == n {
      NotRenamed(shape, e);
    }
  }

  lemma RelabelledMore<D>(c: Column<D>, rest: seq<Column<D>>, naming: string -> string)
    ensures Relabelled([c] + rest, naming) == [Column(naming(c.name), c.data)] + Relabelled(rest, naming)
  {
  }

  lemma {:induction false} PassesAreShape<D>(columns: seq<Column<D>>, shape: seq<Entry>, dropped: seq<string>,
                                             naming: string -> string)
    requires forall c <- columns :: Target(shape, c.name) == if c.name in dropped then None else Some(naming(c.name))
    ensures Relabelled(WithoutAll(columns, dropped), naming) == Shaped(columns, shape)
  {
    if columns != [] {
      assert forall c <- columns[1..] :: c in columns;
      PassesAreShape(columns[1..], shape, dropped, naming);
      var c, rest := columns[0], WithoutAll(columns[1..], dropped);
      assert c in columns;
      if c.name in dropped {
        assert WithoutAll(columns, dropped) == [] + rest == rest;
        assert Shaped(columns, shape) == [] + Shaped(columns[1..], shape) == Shaped(columns[1..], shape);
      } else {
        assert WithoutAll(columns, dropped) == [c] + rest;
        RelabelledMore(c, rest, naming);
      }
    }
  }

  /** The three passes are the shape applied at once, or they fail; and they fail exactly when a
      column to be dropped or renamed is not there, two columns would be called the same, or none
      would be left of some. */
  lemma ApplyShapeIs<D>(columns: seq<Column<D>>, shape: seq<Entry>)
    requires IsFor(shape, columns)
    ensures var done := Run(columns, Statements(shape));
            && (done.ok <==>
                  && SourcesExist(shape, columns)
                  && UniqueNames(Shaped(columns, shape)) && (columns == [] || Shaped(columns, shape) != []))
            && (done.ok ==> done.columns == Shaped(columns, shape))
  {
    if SourcesExist(shape, columns) {
      SourcesThere(columns, shape);
    } else {
      var e :| e in shape && Acts(e) && e.source !in Names(columns);
      SourceGone(columns, shape, e);
    }
  }

  lemma SourcesThere<D>(columns: seq<Column<D>>, shape: seq<Entry>)
    requires IsFor(shape, columns) && SourcesExist(shape, columns)
    ensures var done := Run(columns, Statements(shape));
            && (done.ok <==> UniqueNames(Shaped(columns, shape)) && (columns == [] || Shaped(columns, shape) != []))
            && (done.ok ==> done.columns == Shaped(columns, shape))
  {
    var dropped, renamed := Dropped(shape), Renamings(shape);
    var kept := WithoutAll(columns, dropped);
    DroppedFit(columns, shape);
    DropsRun(columns, dropped);
    RunsCompose(columns, Drops(dropped) + Places(renamed), Finals(renamed));
    RunsCompose(columns, Drops(dropped), Places(renamed));
    forall c <- columns
      ensures Target(shape, c.name) == if c.name in dropped then None else Some(LastName(shape, c.name))
    {
      TargetIs(shape, c.name);
    }
    PassesAreShape(columns, shape, dropped, Labels(renamed, |renamed|, |renamed|));
    if dropped == [] {
      WithoutNone(columns);
    }
    if Run(columns, Drops(dropped)).ok {
      WithoutAllUnique(columns, dropped);
      RenamingsFit(columns, shape);
      RenamingsRun(kept, renamed);
      NamesStayUnique(columns, Statements(shape));
    } else {
      assert dropped[0] in dropped && dropped[0] in Names(columns);
    }
  }

  lemma RenamingsRun<D>(kept: seq<Column<D>>, renamed: seq<Renaming>)
    requires UniqueNames(kept) && Renames(renamed, kept)
    ensures var n, placed := |renamed|, Run(kept, Places(renamed));
            && placed.ok
            && var done := Run(placed.columns, Finals(renamed));
               if done.ok then done.columns == Relabelled(kept, Labels(renamed, n, n))
               else !UniqueNames(Relabelled(kept, Labels(renamed, n, n)))
  {
    PlacesRun(kept, renamed, |renamed|);
    FinalsRun(kept, renamed, |renamed|);
    assert Places(renamed)[..|renamed|] == Places(renamed) && Finals(renamed)[..|renamed|] == Finals(renamed);
  }

  // ---- a column that is gone

  /** What is not there does not come about by dropping, nor by giving other names. */
  lemma {:induction false} StaysMissing<D>(columns: seq<Column<D>>, alters: seq<Alter>, name: string)
    requires name !in Names(columns) && forall a <- alters :: a.Rename? ==> a.to != name
    ensures name !in Names(Run(columns, alters).columns)
  {
    if alters != [] {
      var init, last := alters[..|alters| - 1], alters[|alters| - 1];
      assert alters == init + [last];
      assert last in alters && forall a <- init :: a in alters;
      StaysMissing(columns, init, name);
      StillMissing(Run(columns, init).columns, last, name);
      RunLast(columns, init, last);
    }
  }

  lemma StillMissing<D>(now: seq<Column<D>>, alter: Alter, name: string)
    requires name !in Names(now) && (alter.Rename? ==> alter.to != name)
    ensures name !in Names(Altered(now, alter))
  {
    match alter
    case Drop(n) =>
      forall c <- WithoutAll(now, [n])
        ensures c.name != name
      {
        WithoutAllHas(now, [n], c);
        assert c in now;
      }
    case Rename(from, to) =>
      forall c <- Renamed(now, from, to)
        ensures c.name != name
      {
        var i :| 0 <= i < |now| && Renamed(now, from, to)[i] == c;
        assert now[i].name in Names(now);
      }
  }

  function Needs(alter: Alter): string { if alter.Drop? then alter.name else alter.from }

  lemma NeedsMissing<D>(columns: seq<Column<D>>, alters: seq<Alter>, k: nat)
    requires k < |alters| && Needs(alters[k]) !in Names(columns)
    requires forall a <- alters :: a.Rename? ==> a.to != Needs(alters[k])
    ensures !Run(columns, alters).ok
  {
    assert forall a <- alters[..k] :: a in alters;
    StaysMissing(columns, alters[..k], Needs(alters[k]));
    if Run(columns, alters[..k]).ok {
      NextOfRun(columns, alters, k);
    } else {
      StoppedStays(columns, alters, k);
    }
  }

  lemma SourceGone<D>(columns: seq<Column<D>>, shape: seq<Entry>, e: Entry)
    requires IsFor(shape, columns) && e in shape && Acts(e) && e.source !in Names(columns)
    ensures !Run(columns, Statements(shape)).ok
  {
    var dropped, renamed := Dropped(shape), Renamings(shape);
    var alters := Drops(dropped) + Places(renamed);
    forall a <- alters
      ensures a.Rename? ==> a.to != e.source
    {
      if a.Rename? {
        var i :| 0 <= i < |renamed| && Places(renamed)[i] == a;
        PlaceholdersApart(i, i);
      }
    }
    var k := WhereNeeded(shape, e);
    NeedsMissing(columns, alters, k);
    RunsCompose(columns, alters, Finals(renamed));
  }

  lemma WhereNeeded(shape: seq<Entry>, e: Entry) returns (k: nat)
    requires DistinctSources(shape) && e in shape && Acts(e)
    ensures var alters := Drops(Dropped(shape)) + Places(Renamings(shape));
            k < |alters| && Needs(alters[k]) == e.source
  {
    DroppedAre(shape);
    RenamingsAre(shape);
    var dropped, renamed := Dropped(shape), Renamings(shape);
    if e.kept.None? {
      assert e == Entry(e.source, None) && e.source in dropped;
      k :| 0 <= k < |dropped| && dropped[k] == e.source;
      assert (Drops(dropped) + Places(renamed))[k] == Drops(dropped)[k];
    } else {
      var r := Renaming(e.source, e.kept.value);
      assert e == Entry(r.source, Some(r.name)) && r in renamed;
      var i :| 0 <= i < |renamed| && renamed[i] == r;
      k := |dropped| + i;
      assert (Drops(dropped) + Places(renamed))[k] == Places(renamed)[i];
    }
  }

  // ---- distinct names

  ghost predicate DistinctKept(shape: seq<Entry>)
  {
    forall i, j :: 0 <= i < j < |shape| && shape[i].kept.Some? ==> shape[i].kept != shape[j].kept
  }

  ghost predicate Mentioned(shape: seq<Entry>, name: string) { exists e <- shape :: e.source == name }

  ghost predicate Wanted(shape: seq<Entry>, name: string) { exists e <- shape :: e.kept == Some(name) }

  /** No column is given the name of one that the shape does not mention. */
  ghost predicate Clear<D>(columns: seq<Column<D>>, shape: seq<Entry>)
  {
    forall c <- columns :: Mentioned(shape, c.name) || !Wanted(shape, c.name)
  }

  /** So distinct names may go round in any cycle: a shape that gives them is refused only for a
      column that is gone, for the name of a column that it does not mention, or for keeping
      nothing. */
  lemma DistinctNamesSucceed<D>(columns: seq<Column<D>>, shape: seq<Entry>)
    requires IsFor(shape, columns) && DistinctKept(shape)
    ensures var done := Run(columns, Statements(shape));
            && (done.ok <==>
                  && SourcesExist(shape, columns) && Clear(columns, shape)
                  && (columns == [] || exists c <- columns :: Target(shape, c.name).Some?))
            && (done.ok ==> done.columns == Shaped(columns, shape))
  {
    ApplyShapeIs(columns, shape);
    if c :| c in columns && Target(shape, c.name).Some? {
      LeftSome(columns, shape, c);
    }
    if columns != [] && Shaped(columns, shape) != [] {
      var d := CameFrom(columns, shape, Shaped(columns, shape)[0]);
    }
    if SourcesExist(shape, columns) {
      if Clear(columns, shape) {
        ShapedNames(columns, shape);
      } else {
        NotClear(columns, shape);
      }
    }
  }

  lemma {:induction false} ShapedNames<D>(columns: seq<Column<D>>, shape: seq<Entry>)
    requires UniqueNames(columns) && DistinctSources(shape) && DistinctKept(shape) && Clear(columns, shape)
    ensures UniqueNames(Shaped(columns, shape))
  {
    if columns != [] {
      assert forall c <- columns[1..] :: c in columns;
      ShapedNames(columns[1..], shape);
      var rest, name := Shaped(columns[1..], shape), columns[0].name;
      if Target(shape, name).Some? {
        forall c <- rest
          ensures c.name != Target(shape, name).value
        {
          var d := CameFrom(columns[1..], shape, c);
          assert columns[0] in columns && d in columns;
          TargetsApart(shape, name, d.name);
        }
      }
    }
  }

  lemma NotClear<D>(columns: seq<Column<D>>, shape: seq<Entry>)
    requires DistinctSources(shape) && SourcesExist(shape, columns) && !Clear(columns, shape)
    ensures !UniqueNames(Shaped(columns, shape))
  {
    var c :| c in columns && !Mentioned(shape, c.name) && Wanted(shape, c.name);
    var e :| e in shape && e.kept == Some(c.name);
    assert Mentioned(shape, e.source);
    assert Acts(e);
    var x :| 0 <= x < |columns| && columns[x] == c;
    var y :| 0 <= y < |columns| && columns[y].name == e.source;
    TargetOf(shape, c.name);
    TargetOf(shape, e.source);
    if x < y {
      SameTarget(columns, shape, x, y);
    } else {
      SameTarget(columns, shape, y, x);
    }
  }

  lemma {:induction false} SameTarget<D>(columns: seq<Column<D>>, shape: seq<Entry>, x: nat, y: nat)
    requires x < y < |columns|
    requires Target(shape, columns[x].name).Some? && Target(shape, columns[x].name) == Target(shape, columns[y].name)
    ensures !UniqueNames(Shaped(columns, shape))
  {
    var rest := Shaped(columns[1..], shape);
    if x > 0 {
      SameTarget(columns[1..], shape, x - 1, y - 1);
      var i, j :| 0 <= i < j < |rest| && rest[i].name == rest[j].name;
      var n := |Shaped(columns, shape)| - |rest|;
      assert Shaped(columns, shape)[n + i] == rest[i] && Shaped(columns, shape)[n + j] == rest[j];
    } else {
      var k := ShapedAt(columns[1..], shape, y - 1);
      var first := Column(Target(shape, columns[0].name).value, columns[0].data);
      assert Shaped(columns, shape) == [first] + rest;
      assert Shaped(columns, shape)[k + 1] == rest[k];
      assert Shaped(columns, shape)[0].name == rest[k].name;
    }
  }

  lemma {:induction false} ShapedAt<D>(columns: seq<Column<D>>, shape: seq<Entry>, y: nat) returns (k: nat)
    requires y < |columns| && Target(shape, columns[y].name).Some?
    ensures k < |Shaped(columns, shape)| && Shaped(columns, shape)[k].name == Target(shape, columns[y].name).value
  {
    if y == 0 {
      k := 0;
    } else {
      k := ShapedAt(columns[1..], shape, y - 1);
      k := k + |Shaped(columns, shape)| - |Shaped(columns[1..], shape)|;
    }
  }

  lemma {:induction false} CameFrom<D>(columns: seq<Column<D>>, shape: seq<Entry>, c: Column<D>) returns (d: Column<D>)
    requires c in Shaped(columns, shape)
    ensures d in columns && Target(shape, d.name) == Some(c.name) && d.data == c.data
  {
    var target := Target(shape, columns[0].name);
    if target == Some(c.name) && columns[0].data == c.data {
      d := columns[0];
    } else {
      assert c in Shaped(columns[1..], shape);
      d := CameFrom(columns[1..], shape, c);
    }
  }

  lemma {:induction false} LeftSome<D>(columns: seq<Column<D>>, shape: seq<Entry>, c: Column<D>)
    requires c in columns && Target(shape, c.name).Some?
    ensures Shaped(columns, shape) != []
  {
    if columns[0] != c {
      LeftSome(columns[1..], shape, c);
    }
  }

  lemma TargetsApart(shape: seq<Entry>, m: string, n: string)
    requires DistinctSources(shape) && DistinctKept(shape) && m != n
    requires Mentioned(shape, m) || !Wanted(shape, m)
    requires Mentioned(shape, n) || !Wanted(shape, n)
    requires Target(shape, m).Some?
    ensures Target(shape, m) != Target(shape, n)
  {
    TargetOf(shape, m);
    TargetOf(shape, n);
    if e :| e in shape && e.source == m {
      if f :| f in shape && f.source == n {
        KeptApart(shape, e, f);
      }
    }
  }

  lemma KeptApart(shape: seq<Entry>, a: Entry, b: Entry)
    requires a in shape && b in shape && a != b && a.kept.Some?
    requires DistinctKept(shape)
    ensures a.kept != b.kept
  {
    var i :| 0 <= i < |shape| && shape[i] == a;
    var j :| 0 <= j < |shape| && shape[j] == b;
    assert i < j || j < i;
  }
}

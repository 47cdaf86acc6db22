/** Schema-drift comparison (schemas/drift.py): which events comparing two snapshots reports, and
    what those events say about the change. */
module Drift {
  import opened Common
  import RealFacts
  import opened SchemaMetadata
  import opened Fingerprints

  datatype DriftEvent =
    | TableAdded(table: string)
    | TableRemoved(table: string)
    | TableRenamedLikely(table: string, target: string)
    | ColumnAdded(table: string, column: string)
    | ColumnRemoved(table: string, column: string)
    | ColumnTypeChanged(table: string, column: string, oldType: string, newType: string)
    | ColumnNullabilityChanged(table: string, column: string, wasNullable: bool, isNullable: bool)
    | RelationshipChanged(table: string)

  type Tables = map<string, Table>

  const RENAME_SIMILARITY_THRESHOLD := 0.7

  function RelationshipSignature(t: Table): set<(string, multiset<string>, string)> {
    set fk | fk in t.foreignKeys :: (fk.constraintName, multiset(fk.columns), fk.referencedTable)
  }

  // ---- likely renames ----------------------------------------------------------------------------

  function ColumnFingerprintSet(h: Hashing, t: Table): set<string> {
    set c | c in t.columns :: FingerprintColumn(h, c)
  }

  /** The share of column fingerprints two tables have in common. */
  function Similarity(a: set<string>, b: set<string>): real
    requires a != {} && b != {}
  {
    |a * b| as real / (if |a| > |b| then |a| else |b|) as real
  }

  /** A table that looks enough like the removed one to be its new name. */
  predicate Resembles(h: Hashing, removed: Table, candidate: Table) {
    var a, b := ColumnFingerprintSet(h, removed), ColumnFingerprintSet(h, candidate);
    a != {} && b != {} && Similarity(a, b) >= RENAME_SIMILARITY_THRESHOLD
  }

  function Likeness(h: Hashing, removed: Table, candidate: Table): real
    requires Resembles(h, removed, candidate)
  {
    Similarity(ColumnFingerprintSet(h, removed), ColumnFingerprintSet(h, candidate))
  }

  /** The candidate resembles the removed table and no other resembles it more. */
  ghost predicate BestMatch(h: Hashing, removed: Table, candidates: seq<Table>, t: Table) {
    && t in candidates && Resembles(h, removed, t)
    && forall c :: c in candidates && Resembles(h, removed, c) ==> Likeness(h, removed, c) <= Likeness(h, removed, t)
  }

  method LikelyRenameTarget(h: Hashing, removed: Table, added: seq<Table>) returns (best: Option<Table>)
    ensures best.None? <==> forall c :: c in added ==> !Resembles(h, removed, c)
    ensures best.Some? ==> BestMatch(h, removed, added, best.value)
  {
    var removedColumns := ColumnFingerprintSet(h, removed);
    if removedColumns == {} {
      return None;
    }
    best := None;
    var bestSimilarity := 0.0;
    for i := 0 to |added|
      invariant best.None? ==> forall k :: 0 <= k < i ==> !Resembles(h, removed, added[k])
      invariant best.Some? ==> best.value in added && Resembles(h, removed, best.value)
      invariant best.Some? ==> bestSimilarity == Likeness(h, removed, best.value)
      invariant best.Some? ==>
        forall k :: 0 <= k < i && Resembles(h, removed, added[k]) ==> Likeness(h, removed, added[k]) <= bestSimilarity
    {
      var candidateColumns := ColumnFingerprintSet(h, added[i]);
      if candidateColumns == {} {
        continue;
      }
      var similarity := Similarity(removedColumns, candidateColumns);
      if similarity >= RENAME_SIMILARITY_THRESHOLD && (best.None? || similarity > bestSimilarity) {
        best := Some(added[i]);
        bestSimilarity := similarity;
      }
    }
  }

  // ---- which events there are ----------------------------------------------------------------------

  ghost predicate Removed(oldTables: Tables, newTables: Tables, name: string) {
    name in oldTables && name !in newTables
  }

  ghost predicate Added(oldTables: Tables, newTables: Tables, name: string) {
    name in newTables && name !in oldTables
  }

  /** `renamed` pairs every removed table that some added table resembles with one that resembles it
      best; ties may go either way. */
  ghost predicate RenamesAreBest(h: Hashing, oldTables: Tables, newTables: Tables, renamed: map<string, string>) {
    && (forall name :: name in renamed <==>
          Removed(oldTables, newTables, name)
            && exists other :: Added(oldTables, newTables, other) && Resembles(h, oldTables[name], newTables[other]))
    && (forall name :: name in renamed ==>
          && Added(oldTables, newTables, renamed[name]) && Resembles(h, oldTables[name], newTables[renamed[name]])
          && forall other :: Added(oldTables, newTables, other) && Resembles(h, oldTables[name], newTables[other]) ==>
               Likeness(h, oldTables[name], newTables[other]) <= Likeness(h, oldTables[name], newTables[renamed[name]]))
  }

  /** The column-level and relationship events of a table present in both snapshots. */
  ghost predicate TableEvent(name: string, before: Table, after: Table, e: DriftEvent) {
    var oldColumns, newColumns := ColumnsByName(before.columns), ColumnsByName(after.columns);
    e.table == name &&
    match e
    case ColumnAdded(_, c) => c in newColumns && c !in oldColumns
    case ColumnRemoved(_, c) => c in oldColumns && c !in newColumns
    case ColumnTypeChanged(_, c, from, to) =>
      c in oldColumns && c in newColumns && from != to && from == oldColumns[c].sqlType && to == newColumns[c].sqlType
    case ColumnNullabilityChanged(_, c, from, to) =>
      c in oldColumns && c in newColumns && from != to && from == oldColumns[c].nullable && to == newColumns[c].nullable
    case RelationshipChanged(_) => RelationshipSignature(before) != RelationshipSignature(after)
    case _ => false
  }

  ghost predicate IsEvent(oldTables: Tables, newTables: Tables, renamed: map<string, string>, e: DriftEvent) {
    match e
    case TableAdded(t) => Added(oldTables, newTables, t) && t !in renamed.Values
    case TableRemoved(t) => Removed(oldTables, newTables, t) && t !in renamed
    case TableRenamedLikely(t, target) => t in renamed && renamed[t] == target
    case _ => CommonTableEvent(oldTables, newTables, e)
  }

  /** `events` lists exactly the events, each once. */
  ghost predicate Reports(oldTables: Tables, newTables: Tables, renamed: map<string, string>, events: seq<DriftEvent>) {
    && (forall e :: e in events <==> IsEvent(oldTables, newTables, renamed, e))
    && Distinct(events)
  }

  // ---- the comparison --------------------------------------------------------------------------------

  method CompareTable(name: string, before: Table, after: Table) returns (events: seq<DriftEvent>)
    ensures forall e :: e in events <==> TableEvent(name, before, after, e)
    ensures Distinct(events)
  {
    var oldColumns, newColumns := ColumnsByName(before.columns), ColumnsByName(after.columns);
    events := [];
    var todo := newColumns.Keys - oldColumns.Keys;
    while todo != {}
      invariant todo <= newColumns.Keys - oldColumns.Keys
      invariant forall e :: e in events <==>
        e.ColumnAdded? && e.table == name && e.column in newColumns.Keys - oldColumns.Keys - todo
      invariant Distinct(events)
    {
      var c :| c in todo;
      events := events + [ColumnAdded(name, c)];
      todo := todo - {c};
    }
    var removedEvents := RemovedColumns(name, oldColumns, newColumns);
    var changedEvents := ChangedColumns(name, oldColumns, newColumns);
    DistinctConcat(events, removedEvents);
    events := events + removedEvents;
    DistinctConcat(events, changedEvents);
    events := events + changedEvents;
    if RelationshipSignature(before) != RelationshipSignature(after) {
      DistinctConcat(events, [RelationshipChanged(name)]);
      events := events + [RelationshipChanged(name)];
    }
  }

  lemma DistinctConcat<T>(a: seq<T>, b: seq<T>)
    requires Distinct(a) && Distinct(b)
    requires forall x :: x in a ==> x !in b
    ensures Distinct(a + b)
  {
    forall i, j | 0 <= i < j < |a + b|
      ensures (a + b)[i] != (a + b)[j]
    {
      if i < |a| <= j {
        assert a[i] in a && b[j - |a|] in b;
      }
    }
  }

  method RemovedColumns(name: string, oldColumns: map<string, Column>,
                        newColumns: map<string, Column>) returns (events: seq<DriftEvent>)
    ensures forall e :: e in events <==>
              e.ColumnRemoved? && e.table == name && e.column in oldColumns.Keys - newColumns.Keys
    ensures Distinct(events)
  {
    events := [];
    var todo := oldColumns.Keys - newColumns.Keys;
    while todo != {}
      invariant todo <= oldColumns.Keys - newColumns.Keys
      invariant forall e :: e in events <==>
        e.ColumnRemoved? && e.table == name && e.column in oldColumns.Keys - newColumns.Keys - todo
      invariant Distinct(events)
    {
      var c :| c in todo;
      events := events + [ColumnRemoved(name, c)];
      todo := todo - {c};
    }
  }

  /** The events about one column present on both sides. */
  ghost predicate ColumnChange(name: string, c: string, before: Column, after: Column, e: DriftEvent) {
    || (before.sqlType != after.sqlType && e == ColumnTypeChanged(name, c, before.sqlType, after.sqlType))
    || (before.nullable != after.nullable && e == ColumnNullabilityChanged(name, c, before.nullable, after.nullable))
  }

  method ChangedColumns(name: string, oldColumns: map<string, Column>,
                        newColumns: map<string, Column>) returns (events: seq<DriftEvent>)
    ensures forall e :: e in events <==>
              (e.ColumnTypeChanged? || e.ColumnNullabilityChanged?) && e.column in oldColumns && e.column in newColumns
              && ColumnChange(name, e.column, oldColumns[e.column], newColumns[e.column], e)
    ensures Distinct(events)
  {
    events := [];
    var both := oldColumns.Keys * newColumns.Keys;
    var todo := both;
    while todo != {}
      invariant todo <= both
      invariant forall e :: e in events <==>
        (e.ColumnTypeChanged? || e.ColumnNullabilityChanged?) && e.column in both - todo
        && ColumnChange(name, e.column, oldColumns[e.column], newColumns[e.column], e)
      invariant Distinct(events)
    {
      var c :| c in todo;
      var before, after := oldColumns[c], newColumns[c];
      if before.sqlType != after.sqlType {
        events := events + [ColumnTypeChanged(name, c, before.sqlType, after.sqlType)];
      }
      if before.nullable != after.nullable {
        events := events + [ColumnNullabilityChanged(name, c, before.nullable, after.nullable)];
      }
      todo := todo - {c};
    }
  }

  method CompareSnapshots(h: Hashing, before: Introspection, after: Introspection)
    returns (events: seq<DriftEvent>, renamed: map<string, string>)
    ensures RenamesAreBest(h, TablesByName(before.tables), TablesByName(after.tables), renamed)
    ensures Reports(TablesByName(before.tables), TablesByName(after.tables), renamed, events)
  {
    var oldByName, newByName := TablesByName(before.tables), TablesByName(after.tables);
    var removedNames := oldByName.Keys - newByName.Keys;
    var addedNames := newByName.Keys - oldByName.Keys;
    var renameEvents;
    renameEvents, renamed := FindRenames(h, oldByName, newByName);
    var removedEvents := TableEvents(removedNames - renamed.Keys, false);
    var addedEvents := TableEvents(addedNames - renamed.Values, true);
    var tableEvents := CommonTableEvents(oldByName, newByName);
    DistinctConcat(renameEvents, removedEvents);
    DistinctConcat(renameEvents + removedEvents, addedEvents);
    DistinctConcat(renameEvents + removedEvents + addedEvents, tableEvents);
    events := renameEvents + removedEvents + addedEvents + tableEvents;
  }

  ghost predicate CommonTableEvent(oldTables: Tables, newTables: Tables, e: DriftEvent) {
    e.table in oldTables && e.table in newTables && TableEvent(e.table, oldTables[e.table], newTables[e.table], e)
  }

  method CommonTableEvents(oldByName: Tables, newByName: Tables) returns (events: seq<DriftEvent>)
    ensures forall e :: e in events <==> CommonTableEvent(oldByName, newByName, e)
    ensures Distinct(events)
  {
    events := [];
    var common := oldByName.Keys * newByName.Keys;
    var todo := common;
    while todo != {}
      invariant todo <= common
      invariant forall e :: e in events <==> e.table in common - todo && CommonTableEvent(oldByName, newByName, e)
      invariant Distinct(events)
    {
      var name :| name in todo;
      var more := CompareTable(name, oldByName[name], newByName[name]);
      assert forall e :: e in more <==> e.table == name && CommonTableEvent(oldByName, newByName, e);
      DistinctConcat(events, more);
      events := events + more;
      todo := todo - {name};
    }
  }

  method FindRenames(h: Hashing, oldByName: Tables, newByName: Tables)
    returns (events: seq<DriftEvent>, renamed: map<string, string>)
    requires forall name :: name in newByName ==> newByName[name].QualifiedName() == name
    ensures RenamesAreBest(h, oldByName, newByName, renamed)
    ensures forall e :: e in events <==> e.TableRenamedLikely? && e.table in renamed && renamed[e.table] == e.target
    ensures Distinct(events)
  {
    var addedTables := AddedTables(oldByName, newByName);
    events, renamed := MatchRemovedTables(h, oldByName, newByName, addedTables);
    RecordedMatchesAreBest(h, oldByName, newByName, addedTables, renamed);
  }

  method MatchRemovedTables(h: Hashing, oldByName: Tables, newByName: Tables, addedTables: seq<Table>)
    returns (events: seq<DriftEvent>, renamed: map<string, string>)
    requires forall t :: t in addedTables ==> t.QualifiedName() in newByName && newByName[t.QualifiedName()] == t
    ensures renamed.Keys <= oldByName.Keys - newByName.Keys
    ensures forall name :: name in oldByName.Keys - newByName.Keys ==>
              MatchIsRecorded(h, oldByName, newByName, addedTables, renamed, name)
    ensures forall e :: e in events <==> e.TableRenamedLikely? && e.table in renamed && renamed[e.table] == e.target
    ensures Distinct(events)
  {
    events, renamed := [], map[];
    var removed := oldByName.Keys - newByName.Keys;
    var todo := removed;
    while todo != {}
      invariant todo <= removed && renamed.Keys <= removed - todo
      invariant forall name :: name in removed - todo ==>
                  MatchIsRecorded(h, oldByName, newByName, addedTables, renamed, name)
      invariant forall e :: e in events <==> e.TableRenamedLikely? && e.table in renamed && renamed[e.table] == e.target
      invariant Distinct(events)
    {
      var name :| name in todo;
      var found := LikelyRenameTarget(h, oldByName[name], addedTables);
      ghost var before := renamed;
      if found.Some? {
        var target := found.value.QualifiedName();
        renamed := renamed[name := target];
        events := events + [TableRenamedLikely(name, target)];
      }
      todo := todo - {name};
      forall other | other in removed - todo
        ensures MatchIsRecorded(h, oldByName, newByName, addedTables, renamed, other)
      {
        assert other != name ==> MatchIsRecorded(h, oldByName, newByName, addedTables, before, other);
      }
    }
  }

  /** A removed table is in `renamed` exactly when some added table resembles it, paired with a best
      match. */
  ghost predicate MatchIsRecorded(h: Hashing, oldByName: Tables, newByName: Tables, addedTables: seq<Table>,
                                  renamed: map<string, string>, name: string)
    requires name in oldByName
  {
    if name in renamed then
      renamed[name] in newByName && BestMatch(h, oldByName[name], addedTables, newByName[renamed[name]])
    else forall c :: c in addedTables ==> !Resembles(h, oldByName[name], c)
  }

  lemma RecordedMatchesAreBest(h: Hashing, oldByName: Tables, newByName: Tables, addedTables: seq<Table>,
                               renamed: map<string, string>)
    requires forall name :: name in newByName ==> newByName[name].QualifiedName() == name
    requires forall t :: t in addedTables <==>
               Added(oldByName, newByName, t.QualifiedName()) && newByName[t.QualifiedName()] == t
    requires renamed.Keys <= oldByName.Keys - newByName.Keys
    requires forall name :: Removed(oldByName, newByName, name) ==>
               MatchIsRecorded(h, oldByName, newByName, addedTables, renamed, name)
    ensures RenamesAreBest(h, oldByName, newByName, renamed)
  {
    assert forall other :: Added(oldByName, newByName, other) ==> newByName[other] in addedTables;
    forall name | Removed(oldByName, newByName, name)
      ensures name in renamed <==>
                exists other :: Added(oldByName, newByName, other) && Resembles(h, oldByName[name], newByName[other])
    {
      assert MatchIsRecorded(h, oldByName, newByName, addedTables, renamed, name);
      if name in renamed {
        var other := renamed[name];
        assert Added(oldByName, newByName, other) && Resembles(h, oldByName[name], newByName[other]);
      }
    }
    forall name | name in renamed
      ensures Added(oldByName, newByName, renamed[name]) && Resembles(h, oldByName[name], newByName[renamed[name]])
      ensures forall other :: Added(oldByName, newByName, other) && Resembles(h, oldByName[name], newByName[other]) ==>
                Likeness(h, oldByName[name], newByName[other]) <= Likeness(h, oldByName[name], newByName[renamed[name]])
    {
      assert MatchIsRecorded(h, oldByName, newByName, addedTables, renamed, name);
    }
  }

  /** The added tables, in whatever order the set of their names is enumerated. */
  method AddedTables(oldByName: Tables, newByName: Tables) returns (tables: seq<Table>)
    requires forall name :: name in newByName ==> newByName[name].QualifiedName() == name
    ensures forall t :: t in tables <==>
              Added(oldByName, newByName, t.QualifiedName()) && newByName[t.QualifiedName()] == t
  {
    tables := [];
    var names := newByName.Keys - oldByName.Keys;
    var todo := names;
    while todo != {}
      invariant todo <= names
      invariant forall t :: t in tables <==> t.QualifiedName() in names - todo && newByName[t.QualifiedName()] == t
    {
      var name :| name in todo;
      tables := tables + [newByName[name]];
      todo := todo - {name};
    }
  }

  method TableEvents(names: set<string>, added: bool) returns (events: seq<DriftEvent>)
    ensures forall e :: e in events <==> (if added then e.TableAdded? else e.TableRemoved?) && e.table in names
    ensures Distinct(events)
  {
    events := [];
    var todo := names;
    while todo != {}
      invariant todo <= names
      invariant forall e :: e in events <==>
                  (if added then e.TableAdded? else e.TableRemoved?) && e.table in names - todo
      invariant Distinct(events)
    {
      var name :| name in todo;
      events := events + [if added then TableAdded(name) else TableRemoved(name)];
      todo := todo - {name};
    }
  }

  // ---- what the events say ------------------------------------------------------------------------------

  /** Two versions of a table have the same columns (name, type, nullability) and the same relationship
      signature. */
  ghost predicate Unchanged(before: Table, after: Table) {
    ColumnsByName(before.columns) == ColumnsByName(after.columns)
      && RelationshipSignature(before) == RelationshipSignature(after)
  }

  lemma TableEventsExactlyOnChange(name: string, before: Table, after: Table)
    ensures (forall e :: !TableEvent(name, before, after, e)) <==> Unchanged(before, after)
  {
    var oldColumns, newColumns := ColumnsByName(before.columns), ColumnsByName(after.columns);
    if forall e :: !TableEvent(name, before, after, e) {
      assert !TableEvent(name, before, after, RelationshipChanged(name));
      forall c
        ensures c in oldColumns <==> c in newColumns
        ensures c in oldColumns ==> oldColumns[c] == newColumns[c]
      {
        assert !TableEvent(name, before, after, ColumnAdded(name, c));
        assert !TableEvent(name, before, after, ColumnRemoved(name, c));
        if c in oldColumns {
          assert !TableEvent(name, before, after,
                             ColumnTypeChanged(name, c, oldColumns[c].sqlType, newColumns[c].sqlType));
          assert !TableEvent(name, before, after,
                             ColumnNullabilityChanged(name, c, oldColumns[c].nullable, newColumns[c].nullable));
        }
      }
      assert oldColumns == newColumns;
    }
  }

  ghost predicate Mentions(events: seq<DriftEvent>, name: string) {
    exists e :: e in events && e.table == name
  }

  /** A table of the old snapshot is mentioned exactly when it was removed (renamed or not) or its
      columns or relationships changed. */
  lemma MentionedExactlyWhenChanged(h: Hashing, oldTables: Tables, newTables: Tables, renamed: map<string, string>,
                                    events: seq<DriftEvent>, name: string)
    requires RenamesAreBest(h, oldTables, newTables, renamed) && Reports(oldTables, newTables, renamed, events)
    requires name in oldTables
    ensures Mentions(events, name) <==> name !in newTables || !Unchanged(oldTables[name], newTables[name])
  {
    if name !in newTables {
      var e := if name in renamed then TableRenamedLikely(name, renamed[name]) else TableRemoved(name);
      assert IsEvent(oldTables, newTables, renamed, e);
    } else {
      TableEventsExactlyOnChange(name, oldTables[name], newTables[name]);
      if !Unchanged(oldTables[name], newTables[name]) {
        var e :| TableEvent(name, oldTables[name], newTables[name], e);
        assert IsEvent(oldTables, newTables, renamed, e);
      }
    }
  }

  /** No events exactly when table names, column triples and relationship signatures all agree. */
  lemma NoEventsExactlyWhenSame(h: Hashing, oldTables: Tables, newTables: Tables, renamed: map<string, string>,
                                events: seq<DriftEvent>)
    requires RenamesAreBest(h, oldTables, newTables, renamed) && Reports(oldTables, newTables, renamed, events)
    ensures events == [] <==>
              && oldTables.Keys == newTables.Keys
              && forall name :: name in oldTables ==> Unchanged(oldTables[name], newTables[name])
  {
    if events == [] {
      forall name
        ensures name in oldTables <==> name in newTables
        ensures name in oldTables ==> Unchanged(oldTables[name], newTables[name])
      {
        if name in oldTables {
          MentionedExactlyWhenChanged(h, oldTables, newTables, renamed, events, name);
        } else if name in newTables {
          AddedTablesAreAccountedFor(h, oldTables, newTables, renamed, events, name);
        }
      }
    } else if oldTables.Keys == newTables.Keys
      && forall name :: name in oldTables ==> Unchanged(oldTables[name], newTables[name]) {
      var e := events[0];
      assert IsEvent(oldTables, newTables, renamed, e);
      TableEventsExactlyOnChange(e.table, oldTables[e.table], newTables[e.table]);
    }
  }

  /** An added table is reported as added, or as what some removed table was likely renamed to. */
  lemma AddedTablesAreAccountedFor(h: Hashing, oldTables: Tables, newTables: Tables, renamed: map<string, string>,
                                   events: seq<DriftEvent>, name: string)
    requires RenamesAreBest(h, oldTables, newTables, renamed) && Reports(oldTables, newTables, renamed, events)
    requires Added(oldTables, newTables, name)
    ensures TableAdded(name) in events <==> !exists t :: TableRenamedLikely(t, name) in events
    ensures events != []
  {
    assert TableAdded(name) in events <==> IsEvent(oldTables, newTables, renamed, TableAdded(name));
    if name in renamed.Values {
      var t :| t in renamed && renamed[t] == name;
      assert IsEvent(oldTables, newTables, renamed, TableRenamedLikely(t, name));
    } else {
      forall t
        ensures TableRenamedLikely(t, name) !in events
      {
        assert TableRenamedLikely(t, name) in events <==>
                 IsEvent(oldTables, newTables, renamed, TableRenamedLikely(t, name));
      }
    }
  }

  ghost predicate AboutRemoval(e: DriftEvent, name: string) {
    (e.TableRemoved? || e.TableRenamedLikely?) && e.table == name
  }

  /** Each removed table gets exactly one event of the two kinds. */
  lemma RemovedTablesAreReportedOnce(oldTables: Tables, newTables: Tables, renamed: map<string, string>,
                                     events: seq<DriftEvent>, name: string)
    requires Reports(oldTables, newTables, renamed, events)
    requires Removed(oldTables, newTables, name)
    ensures exists i :: 0 <= i < |events| && AboutRemoval(events[i], name)
                        && forall j :: 0 <= j < |events| && AboutRemoval(events[j], name) ==> i == j
  {
    var e := if name in renamed then TableRenamedLikely(name, renamed[name]) else TableRemoved(name);
    assert IsEvent(oldTables, newTables, renamed, e);
    var i :| 0 <= i < |events| && events[i] == e;
    forall j | 0 <= j < |events| && AboutRemoval(events[j], name)
      ensures i == j
    {
      assert events[j] in events;
      assert IsEvent(oldTables, newTables, renamed, events[j]);
      assert events[j] == e;
    }
  }

  /** A removed table is reported as likely renamed exactly when some added table resembles it, and
      then to one that resembles it best. */
  lemma RenamesPointToBestMatches(h: Hashing, oldTables: Tables, newTables: Tables, renamed: map<string, string>,
                                  events: seq<DriftEvent>, name: string)
    requires RenamesAreBest(h, oldTables, newTables, renamed) && Reports(oldTables, newTables, renamed, events)
    requires Removed(oldTables, newTables, name)
    ensures TableRemoved(name) in events <==>
              forall other :: Added(oldTables, newTables, other) ==> !Resembles(h, oldTables[name], newTables[other])
    ensures forall target :: TableRenamedLikely(name, target) in events ==>
              && Added(oldTables, newTables, target) && Resembles(h, oldTables[name], newTables[target])
              && forall other :: Added(oldTables, newTables, other) ==>
                   Resembles(h, oldTables[name], newTables[other]) ==>
                     Likeness(h, oldTables[name], newTables[other]) <= Likeness(h, oldTables[name], newTables[target])
  {
    assert TableRemoved(name) in events <==> IsEvent(oldTables, newTables, renamed, TableRemoved(name));
    forall target | TableRenamedLikely(name, target) in events
      ensures name in renamed && renamed[name] == target
    {
      assert IsEvent(oldTables, newTables, renamed, TableRenamedLikely(name, target));
    }
  }

  lemma ColumnEventsReported(oldTables: Tables, newTables: Tables, renamed: map<string, string>,
                             events: seq<DriftEvent>, name: string, c: string)
    requires Reports(oldTables, newTables, renamed, events) && name in oldTables && name in newTables
    ensures var oldColumns, newColumns := ColumnsByName(oldTables[name].columns),
            ColumnsByName(newTables[name].columns);
            && (ColumnRemoved(name, c) in events <==> c in oldColumns && c !in newColumns)
            && (ColumnAdded(name, c) in events <==> c in newColumns && c !in oldColumns)
  {
    assert ColumnRemoved(name, c) in events <==> IsEvent(oldTables, newTables, renamed, ColumnRemoved(name, c));
    assert ColumnAdded(name, c) in events <==> IsEvent(oldTables, newTables, renamed, ColumnAdded(name, c));
  }

  function RemovedColumnNames(events: seq<DriftEvent>, name: string): (names: set<string>)
    ensures forall c :: c in names <==> ColumnRemoved(name, c) in events
  {
    set e | e in events && e.ColumnRemoved? && e.table == name :: e.column
  }

  function AddedColumnNames(events: seq<DriftEvent>, name: string): (names: set<string>)
    ensures forall c :: c in names <==> ColumnAdded(name, c) in events
  {
    set e | e in events && e.ColumnAdded? && e.table == name :: e.column
  }

  /** Replaying the column events on the old column names of a surviving table gives the new ones. */
  lemma ColumnEventsReplay(oldTables: Tables, newTables: Tables, renamed: map<string, string>,
                           events: seq<DriftEvent>, name: string)
    requires Reports(oldTables, newTables, renamed, events)
    requires name in oldTables && name in newTables
    ensures ColumnsByName(oldTables[name].columns).Keys - RemovedColumnNames(events, name)
            + AddedColumnNames(events, name)
            == ColumnsByName(newTables[name].columns).Keys
  {
    forall c
      ensures c in RemovedColumnNames(events, name)
              <==> c in ColumnsByName(oldTables[name].columns) && c !in ColumnsByName(newTables[name].columns)
      ensures c in AddedColumnNames(events, name)
              <==> c in ColumnsByName(newTables[name].columns) && c !in ColumnsByName(oldTables[name].columns)
    {
      ColumnEventsReported(oldTables, newTables, renamed, events, name, c);
    }
  }

  ghost predicate RetypesFrom(e: DriftEvent, name: string, c: Column) {
    e.ColumnTypeChanged? && e.table == name && e.column == c.name && e.oldType == c.sqlType
  }

  ghost predicate RelaxesFrom(e: DriftEvent, name: string, c: Column) {
    e.ColumnNullabilityChanged? && e.table == name && e.column == c.name && e.wasNullable == c.nullable
  }

  /** The column after the recorded changes of its type and nullability. */
  ghost function Replayed(events: seq<DriftEvent>, name: string, c: Column): Column {
    var retyped := if e :| e in events && RetypesFrom(e, name, c) then e.newType else c.sqlType;
    var relaxed := if e :| e in events && RelaxesFrom(e, name, c) then e.isNullable else c.nullable;
    Column(c.name, retyped, relaxed)
  }

  /** Replaying the recorded changes on a column that stays gives the new column. */
  lemma ColumnChangesReplay(oldTables: Tables, newTables: Tables, renamed: map<string, string>,
                            events: seq<DriftEvent>, name: string, c: string)
    requires Reports(oldTables, newTables, renamed, events)
    requires name in oldTables && name in newTables
    requires c in ColumnsByName(oldTables[name].columns) && c in ColumnsByName(newTables[name].columns)
    ensures Replayed(events, name, ColumnsByName(oldTables[name].columns)[c])
            == ColumnsByName(newTables[name].columns)[c]
  {
    var before, after := ColumnsByName(oldTables[name].columns)[c], ColumnsByName(newTables[name].columns)[c];
    forall e: DriftEvent | e.table == name && (e.ColumnTypeChanged? || e.ColumnNullabilityChanged?)
      ensures e in events <==> TableEvent(name, oldTables[name], newTables[name], e)
    {
      assert e in events <==> IsEvent(oldTables, newTables, renamed, e);
    }
    var retyped := ColumnTypeChanged(name, c, before.sqlType, after.sqlType);
    assert RetypesFrom(retyped, name, before) && (retyped in events <==> before.sqlType != after.sqlType);
    var relaxed := ColumnNullabilityChanged(name, c, before.nullable, after.nullable);
    assert RelaxesFrom(relaxed, name, before) && (relaxed in events <==> before.nullable != after.nullable);
  }

  // ---- drift against fingerprints ---------------------------------------------------------------------------

  lemma SameColumnsSameDictionary(t: Table, u: Table)
    requires UniqueColumnNames(t) && UniqueColumnNames(u) && multiset(t.columns) == multiset(u.columns)
    ensures ColumnsByName(t.columns) == ColumnsByName(u.columns)
  {
    forall c
      ensures c in t.columns <==> c in u.columns
    {
      assert c in t.columns <==> c in multiset(t.columns);
      assert c in u.columns <==> c in multiset(u.columns);
    }
    UniqueNamesDecideDictionary(t, u);
  }

  lemma UniqueNamesDecideDictionary(t: Table, u: Table)
    requires UniqueColumnNames(u) && forall c :: c in t.columns <==> c in u.columns
    ensures ColumnsByName(t.columns) == ColumnsByName(u.columns)
  {
    var a, b := ColumnsByName(t.columns), ColumnsByName(u.columns);
    forall name | name in a
      ensures name in b && a[name] == b[name]
    {
      assert a[name] in u.columns;
    }
    forall name | name in b
      ensures name in a
    {
      assert b[name] in t.columns;
    }
  }

  lemma SameShapeOnlyRelationships(name: string, t: Table, u: Table, e: DriftEvent)
    requires SameShape(t, u) && UniqueColumnNames(t) && UniqueColumnNames(u) && TableEvent(name, t, u, e)
    ensures e.RelationshipChanged?
  {
    SameColumnsSameDictionary(t, u);
  }

  lemma SurvivingTableEvent(oldTables: Tables, newTables: Tables, renamed: map<string, string>, e: DriftEvent)
    requires IsEvent(oldTables, newTables, renamed, e)
    requires e.table in renamed ==> Removed(oldTables, newTables, e.table)
    requires e.table in oldTables <==> e.table in newTables
    ensures CommonTableEvent(oldTables, newTables, e)
  {
  }

  /** With a collision-free hash and unique column names, equal schema fingerprints leave only
      relationship changes for drift to report. */
  lemma EqualFingerprintsLeaveOnlyRelationshipChanges(h: Hashing, before: Introspection, after: Introspection,
                                                      renamed: map<string, string>, events: seq<DriftEvent>,
                                                      e: DriftEvent)
    requires CollisionFree(h) && Sorting.Injective(h.rank)
    requires forall t :: t in before.tables || t in after.tables ==> UniqueColumnNames(t)
    requires SchemaFingerprint(h, before) == SchemaFingerprint(h, after)
    requires RenamesAreBest(h, TablesByName(before.tables), TablesByName(after.tables), renamed)
    requires Reports(TablesByName(before.tables), TablesByName(after.tables), renamed, events)
    requires e in events
    ensures e.RelationshipChanged?
  {
    var oldTables, newTables := TablesByName(before.tables), TablesByName(after.tables);
    SchemaFingerprintIsExact(h, before, after);
    assert e.table in oldTables <==> e.table in newTables;
    SurvivingTableEvent(oldTables, newTables, renamed, e);
    SameShapeOnlyRelationships(e.table, oldTables[e.table], newTables[e.table], e);
  }

  /** Renaming a foreign-key constraint is drift that no fingerprint shows. */
  lemma ConstraintRenameIsDriftWithoutFingerprintChange(h: Hashing, t: Table, fk: ForeignKey, newName: string)
    requires CollisionFree(h) && Sorting.Injective(h.rank) && newName != fk.constraintName
    ensures var before := t.(foreignKeys := [fk]);
            var after := t.(foreignKeys := [fk.(constraintName := newName)]);
            FingerprintTable(h, before) == FingerprintTable(h, after) && !Unchanged(before, after)
  {
    var before := t.(foreignKeys := [fk]);
    var after := t.(foreignKeys := [fk.(constraintName := newName)]);
    TableFingerprintIsExact(h, before, after);
    assert (fk.constraintName, multiset(fk.columns), fk.referencedTable) in RelationshipSignature(before);
  }

  /** Changing the primary key changes the fingerprint without any drift. */
  lemma PrimaryKeyChangeIsNoDrift(h: Hashing, t: Table, primaryKey: seq<string>)
    requires CollisionFree(h) && Sorting.Injective(h.rank) && multiset(primaryKey) != multiset(t.primaryKey)
    ensures var after := t.(primaryKey := primaryKey);
            FingerprintTable(h, t) != FingerprintTable(h, after) && Unchanged(t, after)
  {
    TableFingerprintIsExact(h, t, t.(primaryKey := primaryKey));
  }

  /** Two tables resemble each other if and only if both have columns and at least seven tenths of the larger
      set of column fingerprints are in both. */
  lemma ResemblesExactlyWhen(h: Hashing, removed: Table, candidate: Table)
    ensures var a, b := ColumnFingerprintSet(h, removed), ColumnFingerprintSet(h, candidate);
            Resembles(h, removed, candidate)
            <==> a != {} && b != {} && 10 * |a * b| >= 7 * |a| && 10 * |a * b| >= 7 * |b|
  {
    var a, b := ColumnFingerprintSet(h, removed), ColumnFingerprintSet(h, candidate);
    if a != {} && b != {} {
      var larger := (if |a| > |b| then |a| else |b|) as real;
      RealFacts.DivideThenMultiply(|a * b| as real, larger);
      RatioAtLeast(|a * b| as real, larger, 0.7);
    }
  }

  lemma RatioAtLeast(part: real, whole: real, bound: real)
    requires whole > 0.0
    ensures part / whole >= bound <==> part >= bound * whole
  {
    RealFacts.DivideThenMultiply(part, whole);
    if part / whole >= bound {
      assert part / whole * whole >= bound * whole;
    } else {
      assert part / whole * whole < bound * whole;
    }
  }

  /** The foreign key is in the table, up to the order of its columns and what they refer to. */
  predicate HasForeignKey(t: Table, fk: ForeignKey) {
    exists other :: other in t.foreignKeys && other.constraintName == fk.constraintName
                    && multiset(other.columns) == multiset(fk.columns) && other.referencedTable == fk.referencedTable
  }

  /** A surviving table is reported with a relationship change if and only if one of the two versions has a
      foreign key that the other lacks: by constraint name, columns or referenced table. */
  lemma RelationshipChangesExactlyWhen(h: Hashing, oldTables: Tables, newTables: Tables, renamed: map<string, string>,
                                       events: seq<DriftEvent>, name: string)
    requires RenamesAreBest(h, oldTables, newTables, renamed) && Reports(oldTables, newTables, renamed, events)
    requires name in oldTables && name in newTables
    ensures RelationshipChanged(name) in events
            <==> || (exists fk :: fk in oldTables[name].foreignKeys && !HasForeignKey(newTables[name], fk))
                 || (exists fk :: fk in newTables[name].foreignKeys && !HasForeignKey(oldTables[name], fk))
  {
    hide IsEvent, RenamesAreBest, RelationshipSignature, HasForeignKey;
    assert RelationshipChanged(name) in events <==> IsEvent(oldTables, newTables, renamed, RelationshipChanged(name));
    RelationshipEvent(oldTables, newTables, renamed, name);
    SignaturesDifferExactlyWhen(oldTables[name], newTables[name]);
  }

  lemma RelationshipEvent(oldTables: Tables, newTables: Tables, renamed: map<string, string>, name: string)
    requires name in oldTables && name in newTables
    ensures IsEvent(oldTables, newTables, renamed, RelationshipChanged(name))
            <==> RelationshipSignature(oldTables[name]) != RelationshipSignature(newTables[name])
  {
    hide RelationshipSignature;
  }

  lemma SignaturesDifferExactlyWhen(before: Table, after: Table)
    ensures RelationshipSignature(before) != RelationshipSignature(after)
            <==> || (exists fk :: fk in before.foreignKeys && !HasForeignKey(after, fk))
                 || (exists fk :: fk in after.foreignKeys && !HasForeignKey(before, fk))
  {
    SignatureHolds(before);
    SignatureHolds(after);
    hide RelationshipSignature, HasForeignKey;
    if RelationshipSignature(before) != RelationshipSignature(after) {
      if x :| x in RelationshipSignature(before) && x !in RelationshipSignature(after) {
        var fk := FromSignature(before, x);
      } else {
        var x :| x in RelationshipSignature(after) && x !in RelationshipSignature(before);
        var fk := FromSignature(after, x);
      }
    }
  }

  function SignatureOf(fk: ForeignKey): (string, multiset<string>, string) {
    (fk.constraintName, multiset(fk.columns), fk.referencedTable)
  }

  lemma SignatureHolds(t: Table)
    ensures forall fk: ForeignKey :: SignatureOf(fk) in RelationshipSignature(t) <==> HasForeignKey(t, fk)
    ensures forall fk :: fk in t.foreignKeys ==> SignatureOf(fk) in RelationshipSignature(t)
  {
  }

  lemma FromSignature(t: Table, x: (string, multiset<string>, string)) returns (fk: ForeignKey)
    requires x in RelationshipSignature(t)
    ensures fk in t.foreignKeys && SignatureOf(fk) == x
  {
    fk :| fk in t.foreignKeys && SignatureOf(fk) == x;
  }
}

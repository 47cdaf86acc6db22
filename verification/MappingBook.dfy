/** What mappings are, by the calls alone: for each mapping its list of drafts and a state, without version
    rows or their ids, which the service and its store turn out to implement. */
module MappingBook {
  import opened Common
  import opened Documents
  import opened Repository
  import opened Snapshots
  import opened MappingLifecycle
  import opened MappingSafety
  import opened MappingHistory
  import opened MappingServing

  /** What was drafted, by whom, and who approved it. */
  datatype Draft = Draft(document: MappingDocument, author: Uuid, approver: Option<Uuid>)

  /** `active` is the number of the active draft, counted from 1. */
  datatype Entry = Entry(entityName: string, snapshotId: Uuid, ontologyVersion: string, state: MappingState,
                         drafts: seq<Draft>, active: Option<nat>, suspended: bool)

  datatype Ledger = Ledger(book: Table<Entry>, snapshots: Table<SchemaSnapshot>)

  function Plain(e: Entry): SchemaMapping {
    SchemaMapping(e.entityName, e.snapshotId, e.ontologyVersion, e.state, None, e.suspended)
  }

  ghost predicate LastDraftValidates(o: Ontology, snapshots: Table<SchemaSnapshot>, tenantId: Uuid, e: Entry) {
    e.drafts != [] && SubmissionProblem(o, snapshots, tenantId, Plain(e), e.drafts[|e.drafts| - 1].document).None?
  }

  /** What a call about one mapping does to its entry. */
  ghost function Changed(o: Ontology, snapshots: Table<SchemaSnapshot>, caller: Caller, op: Op, e: Entry): Entry
    requires ConcernsOneMapping(op)
  {
    var n := |e.drafts|;
    match op
    case CreateNewVersion(_, document, _) =>
      e.(state := MappingState.Draft, drafts := e.drafts + [Draft.Draft(document, caller.principalId, None)])
    case SubmitForValidation(_) =>
      if e.state.Draft? && LastDraftValidates(o, snapshots, caller.tenantId, e) then e.(state := PendingValidation)
        else e
    case Approve(_) =>
      if e.state.PendingValidation? && n > 0 then
        e.(state := Approved, drafts := e.drafts[n - 1 := e.drafts[n - 1].(approver := Some(caller.principalId))])
      else e
    case Activate(_) => if e.state.Approved? then e.(state := Active, active := Some(n), suspended := false) else e
    case Deprecate(_) => if e.state.Active? then e.(state := Deprecated) else e
    case Reject(_) => if e.state.Draft? || e.state.PendingValidation? then e.(state := Rejected) else e
    case GetProductionVersion(_) => e
  }

  /** The ACTIVE entry's active draft reads from one of the tables. */
  predicate ReadsFrom(e: Entry, tables: set<string>) {
    && e.state.Active? && e.active.Some? && 1 <= e.active.value <= |e.drafts|
    && e.drafts[e.active.value - 1].document.SourceTable() in tables
  }

  function SuspendedIn(book: Table<Entry>, tenantId: Uuid, tables: set<string>): Table<Entry> {
    map id | id in book ::
      if book[id].tenantId == tenantId && ReadsFrom(book[id].body, tables) then
        Row(tenantId, book[id].body.(suspended := true))
      else book[id]
  }

  ghost function Entered(o: Ontology, l: Ledger, c: Call): Ledger {
    var t := c.caller.tenantId;
    match c.op
    case CreateDraft(snapshotId, document, version, id, _) =>
      var drafts := [Draft.Draft(document, c.caller.principalId, None)];
      l.(book :=
           l.book[id := Row(t, Entry(document.entity, snapshotId, version, MappingState.Draft, drafts, None, false))])
    case Resolve(_) => l
    case SuspendAffectedByDrift(snapshot) => l.(book := SuspendedIn(l.book, t, AffectedTables(snapshot)))
    case RecordSnapshot(id, snapshot) => l.(snapshots := l.snapshots[id := Row(t, snapshot)])
    case _ =>
      match Get(l.book, c.op.mappingId, t)
      case None => l
      case Some(e) => l.(book := l.book[c.op.mappingId := Row(t, Changed(o, l.snapshots, c.caller, c.op, e))])
  }

  ghost function Kept(o: Ontology, calls: seq<Call>): Ledger {
    if calls == [] then Ledger(map[], map[]) else Entered(o, Kept(o, calls[..|calls| - 1]), calls[|calls| - 1])
  }

  // ---- the store keeps the book -------------------------------------------------------------------

  /** The version rows are the drafts, by number. */
  ghost predicate Tells(versions: map<Uuid, MappingVersion>, mappingId: Uuid, drafts: seq<Draft>) {
    && |versions| == |drafts|
    && forall v :: v in versions ==> TellsVersion(versions[v], mappingId, drafts)
  }

  predicate TellsVersion(v: MappingVersion, mappingId: Uuid, drafts: seq<Draft>) {
    && 1 <= v.number <= |drafts|
    && var d := drafts[v.number - 1];
       v == MappingVersion(mappingId, v.number, d.document, d.author, d.approver)
  }

  ghost predicate Mirrors(m: SchemaMapping, versions: map<Uuid, MappingVersion>, mappingId: Uuid, e: Entry) {
    && m.(activeVersionId := None) == Plain(e) && Tells(versions, mappingId, e.drafts)
    && (m.activeVersionId.None? <==> e.active.None?)
    && (m.activeVersionId.Some? && e.active.Some? ==>
          m.activeVersionId.value in versions && versions[m.activeVersionId.value].number == e.active.value)
  }

  ghost predicate AgreesAt(s: Store, book: Table<Entry>, id: Uuid) {
    && (id in s.mappings <==> id in book)
    && (id in book ==>
          && s.mappings[id].tenantId == book[id].tenantId
          && Mirrors(s.mappings[id].body, VersionsOf(s, book[id].tenantId, id), id, book[id].body))
  }

  ghost predicate Agrees(s: Store, l: Ledger) {
    s.snapshots == l.snapshots && forall id :: AgreesAt(s, l.book, id)
  }

  // ---- one mapping at a time ----------------------------------------------------------------------

  lemma FirstDraftTells(id: Uuid, versionId: Uuid, v: MappingVersion, d: Draft)
    requires v == MappingVersion(id, 1, d.document, d.author, d.approver)
    ensures Tells(map[versionId := v], id, [d])
  {
  }

  lemma NextDraftTells(versions: map<Uuid, MappingVersion>, id: Uuid, drafts: seq<Draft>, versionId: Uuid,
                       v: MappingVersion, d: Draft)
    requires Tells(versions, id, drafts) && versionId !in versions
    requires v == MappingVersion(id, |drafts| + 1, d.document, d.author, d.approver)
    ensures Tells(versions[versionId := v], id, drafts + [d])
  {
    var more := versions[versionId := v];
    assert more.Keys == versions.Keys + {versionId};
    assert |more| == |versions| + 1;
    forall w | w in more
      ensures TellsVersion(more[w], id, drafts + [d])
    {
      if w != versionId {
        assert TellsVersion(versions[w], id, drafts);
      }
    }
  }

  lemma ApprovedDraftTells(versions: map<Uuid, MappingVersion>, id: Uuid, drafts: seq<Draft>, newest: Uuid,
                           approver: Uuid)
    requires Tells(versions, id, drafts) && NumberedFromOne(versions) && IsNewest(versions, newest)
    ensures |drafts| > 0
    ensures var n := |drafts|;
            Tells(versions[newest := versions[newest].(approvedBy := Some(approver))], id,
                  drafts[n - 1 := drafts[n - 1].(approver := Some(approver))])
  {
    assert TellsVersion(versions[newest], id, drafts);
    var n := |drafts|;
    var after := versions[newest := versions[newest].(approvedBy := Some(approver))];
    assert after.Keys == versions.Keys;
    assert |after| == |after.Keys| == |versions.Keys| == |versions|;
    forall w | w in after
      ensures TellsVersion(after[w], id, drafts[n - 1 := drafts[n - 1].(approver := Some(approver))])
    {
      assert TellsVersion(versions[w], id, drafts);
      assert w != newest ==> versions[w].number != versions[newest].number;
    }
  }

  lemma RedraftIsEntered(o: Ontology, s: Store, caller: Caller, op: Op, m: SchemaMapping, e: Entry, s': Store)
    requires Sound(o, s) && op.CreateNewVersion? && op.versionId !in s.versions
    requires Get(s.mappings, op.mappingId, caller.tenantId) == Some(m)
    requires Mirrors(m, VersionsOf(s, caller.tenantId, op.mappingId), op.mappingId, e)
    requires s' == Redrafted(s, caller, op.mappingId, m, op.versionId, op.newDocument).0
    ensures op.mappingId in s'.mappings && s'.mappings[op.mappingId].tenantId == caller.tenantId
    ensures Mirrors(s'.mappings[op.mappingId].body, VersionsOf(s', caller.tenantId, op.mappingId), op.mappingId,
                    Changed(o, s.snapshots, caller, op, e))
    ensures forall t, other :: other != op.mappingId ==> VersionsOf(s', t, other) == VersionsOf(s, t, other)
  {
    hide MappingSound, VersionsOf;
    var t, id := caller.tenantId, op.mappingId;
    var versions := VersionsOf(s, t, id);
    var newest := NewestOf(o, s, t, id, m);
    var v := MappingVersion(id, |versions| + 1, op.newDocument, caller.principalId, None);
    NotAmongVersions(s, t, id, op.versionId);
    NextDraftTells(versions, id, e.drafts, op.versionId, v, Draft.Draft(op.newDocument, caller.principalId, None));
    forall u, other
      ensures VersionsOf(s', u, other)
              == if u == t && other == id then versions[op.versionId := v] else VersionsOf(s, u, other)
    {
      VersionsAfterWrite(s, t, op.versionId, v, u, other);
      VersionsAfterMove(SetVersion(s, t, op.versionId, v), t, id, m.(state := MappingState.Draft), u, other);
    }
  }

  lemma NotAmongVersions(s: Store, tenantId: Uuid, id: Uuid, versionId: Uuid)
    requires versionId !in s.versions
    ensures versionId !in VersionsOf(s, tenantId, id)
  {
  }

  lemma AmongVersions(s: Store, tenantId: Uuid, id: Uuid, versionId: Uuid)
    requires versionId in VersionsOf(s, tenantId, id)
    ensures versionId in s.versions && s.versions[versionId].tenantId == tenantId
    ensures s.versions[versionId].body.mappingId == id
            && VersionsOf(s, tenantId, id)[versionId] == s.versions[versionId].body
  {
  }

  lemma ApprovalIsEntered(o: Ontology, s: Store, caller: Caller, op: Op, m: SchemaMapping, e: Entry, s': Store)
    requires Sound(o, s) && op.Approve? && m.state.PendingValidation?
    requires Get(s.mappings, op.mappingId, caller.tenantId) == Some(m)
    requires Mirrors(m, VersionsOf(s, caller.tenantId, op.mappingId), op.mappingId, e)
    requires s' == ApprovedBy(s, caller, op.mappingId, m).0
    ensures op.mappingId in s'.mappings && s'.mappings[op.mappingId].tenantId == caller.tenantId
    ensures Mirrors(s'.mappings[op.mappingId].body, VersionsOf(s', caller.tenantId, op.mappingId), op.mappingId,
                    Changed(o, s.snapshots, caller, op, e))
    ensures forall t, other :: other != op.mappingId ==> VersionsOf(s', t, other) == VersionsOf(s, t, other)
  {
    var t, id := caller.tenantId, op.mappingId;
    var versions := VersionsOf(s, t, id);
    var newest := NewestOf(o, s, t, id, m);
    hide VersionsOf, LatestOf;
    var v := versions[newest].(approvedBy := Some(caller.principalId));
    AmongVersions(s, t, id, newest);
    ApprovedDraftTells(versions, id, e.drafts, newest, caller.principalId);
    assert s' == SetMapping(SetVersion(s, t, newest, v), t, id, m.(state := Approved));
    forall u, other
      ensures VersionsOf(s', u, other) == if u == t && other == id then versions[newest := v]
              else VersionsOf(s, u, other)
    {
      VersionsAfterWrite(s, t, newest, v, u, other);
      VersionsAfterMove(SetVersion(s, t, newest, v), t, id, m.(state := Approved), u, other);
    }
  }

  lemma SameProblem(o: Ontology, snapshots: Table<SchemaSnapshot>, tenantId: Uuid, m: SchemaMapping, e: Entry,
                    d: MappingDocument)
    requires m.(activeVersionId := None) == Plain(e)
    ensures SubmissionProblem(o, snapshots, tenantId, m, d) == SubmissionProblem(o, snapshots, tenantId, Plain(e), d)
  {
  }

  lemma MoveIsEntered(o: Ontology, s: Store, caller: Caller, op: Op, m: SchemaMapping, e: Entry, s': Store)
    requires Sound(o, s) && ConcernsOneMapping(op) && !op.CreateNewVersion?
             && (op.Approve? ==> !m.state.PendingValidation?)
    requires Get(s.mappings, op.mappingId, caller.tenantId) == Some(m)
    requires Mirrors(m, VersionsOf(s, caller.tenantId, op.mappingId), op.mappingId, e)
    requires s' == ApplyToMapping(o, s, caller, op, m).0
    ensures op.mappingId in s'.mappings && s'.mappings[op.mappingId].tenantId == caller.tenantId
    ensures Mirrors(s'.mappings[op.mappingId].body, VersionsOf(s', caller.tenantId, op.mappingId), op.mappingId,
                    Changed(o, s.snapshots, caller, op, e))
    ensures forall t, other :: other != op.mappingId ==> VersionsOf(s', t, other) == VersionsOf(s, t, other)
  {
    var t, id := caller.tenantId, op.mappingId;
    var versions := VersionsOf(s, t, id);
    var newest := NewestOf(o, s, t, id, m);
    assert TellsVersion(versions[newest], id, e.drafts);
    assert |e.drafts| == |versions| == versions[newest].number;
    SameProblem(o, s.snapshots, t, m, e, versions[newest].document);
    hide VersionsOf, SubmissionProblem, LatestOf, MappingSound, Tells, NumberedFromOne, Sound, ServeActive;
    assert s' == s || s' == SetMapping(s, t, id, s'.mappings[id].body);
    forall u, other
      ensures VersionsOf(s', u, other) == VersionsOf(s, u, other)
    {
      VersionsAfterMove(s, t, id, s'.mappings[id].body, u, other);
    }
  }

  /** A call about one mapping is what the book says of it, and no other mapping's business. */
  lemma MappingCallIsEntered(o: Ontology, s: Store, l: Ledger, c: Call, m: SchemaMapping, e: Entry, s': Store)
    requires Sound(o, s) && GeneratesFreshIds(s, c.op) && ConcernsOneMapping(c.op) && s.snapshots == l.snapshots
    requires Get(s.mappings, c.op.mappingId, c.caller.tenantId) == Some(m)
    requires Mirrors(m, VersionsOf(s, c.caller.tenantId, c.op.mappingId), c.op.mappingId, e)
    requires s' == ApplyToMapping(o, s, c.caller, c.op, m).0
    ensures c.op.mappingId in s'.mappings && s'.mappings[c.op.mappingId].tenantId == c.caller.tenantId
    ensures Mirrors(s'.mappings[c.op.mappingId].body, VersionsOf(s', c.caller.tenantId, c.op.mappingId), c.op.mappingId,
                    Changed(o, l.snapshots, c.caller, c.op, e))
    ensures forall t, other :: other != c.op.mappingId ==> VersionsOf(s', t, other) == VersionsOf(s, t, other)
    ensures forall other :: other != c.op.mappingId ==> (other in s'.mappings <==> other in s.mappings)
    ensures forall other :: other in s.mappings && other != c.op.mappingId ==> s'.mappings[other] == s.mappings[other]
    ensures s'.snapshots == s.snapshots
  {
    hide Mirrors, VersionsOf, Changed, Sound, SubmissionProblem, LatestOf, HighestNumber, ServeActive;
    if c.op.CreateNewVersion? {
      RedraftIsEntered(o, s, c.caller, c.op, m, e, s');
    } else if c.op.Approve? && m.state.PendingValidation? {
      ApprovalIsEntered(o, s, c.caller, c.op, m, e, s');
    } else {
      MoveIsEntered(o, s, c.caller, c.op, m, e, s');
    }
  }

  // ---- the remaining calls ------------------------------------------------------------------------

  lemma CreationIsEntered(o: Ontology, s: Store, l: Ledger, c: Call, s': Store)
    requires Sound(o, s) && GeneratesFreshIds(s, c.op) && c.op.CreateDraft? && Agrees(s, l)
    requires s' == Apply(o, s, c.caller, c.op).0
    ensures Agrees(s', Entered(o, l, c))
  {
    var t, id, versionId := c.caller.tenantId, c.op.newMappingId, c.op.newVersionId;
    var v := MappingVersion(id, 1, c.op.document, c.caller.principalId, None);
    var m := SchemaMapping(c.op.document.entity, c.op.snapshotId, c.op.ontologyVersion, MappingState.Draft, None,
                           false);
    FirstVersionIsAlone(s, t, id, versionId, v);
    FirstDraftTells(id, versionId, v, Draft.Draft(c.op.document, c.caller.principalId, None));
    hide VersionsOf, VersionsOwned, MappingAt;
    forall other
      ensures AgreesAt(s', Entered(o, l, c).book, other)
    {
      assert AgreesAt(s, l.book, other);
      var u := if other in s'.mappings then s'.mappings[other].tenantId else t;
      VersionsAfterWrite(SetMapping(s, t, id, m), t, versionId, v, u, other);
      VersionsAfterMove(s, t, id, m, u, other);
    }
  }

  lemma AffectedReadsFrom(o: Ontology, s: Store, book: Table<Entry>, tenantId: Uuid, id: Uuid, tables: set<string>)
    requires Sound(o, s) && AgreesAt(s, book, id) && id in book
    ensures IsAffected(s, tenantId, id, tables) <==> book[id].tenantId == tenantId && ReadsFrom(book[id].body, tables)
  {
    var t, m, e := book[id].tenantId, s.mappings[id].body, book[id].body;
    assert MappingAt(o, s, id);
    if m.activeVersionId.Some? {
      AmongVersions(s, t, id, m.activeVersionId.value);
      assert TellsVersion(VersionsOf(s, t, id)[m.activeVersionId.value], id, e.drafts);
    }
  }

  lemma SuspensionIsEntered(o: Ontology, s: Store, l: Ledger, c: Call, s': Store)
    requires Sound(o, s) && c.op.SuspendAffectedByDrift? && Agrees(s, l)
    requires s' == Apply(o, s, c.caller, c.op).0
    ensures Agrees(s', Entered(o, l, c))
  {
    var t, tables := c.caller.tenantId, AffectedTables(c.op.snapshot);
    forall id
      ensures AgreesAt(s', Entered(o, l, c).book, id)
    {
      assert AgreesAt(s, l.book, id);
      if id in l.book {
        AffectedReadsFrom(o, s, l.book, t, id, tables);
        assert VersionsOf(s', l.book[id].tenantId, id) == VersionsOf(s, l.book[id].tenantId, id);
      }
    }
  }

  lemma RecordingIsEntered(o: Ontology, s: Store, l: Ledger, c: Call, s': Store)
    requires c.op.RecordSnapshot? && Agrees(s, l) && s' == Apply(o, s, c.caller, c.op).0
    ensures Agrees(s', Entered(o, l, c))
  {
    forall id
      ensures AgreesAt(s', Entered(o, l, c).book, id)
    {
      assert AgreesAt(s, l.book, id);
      if id in l.book {
        assert VersionsOf(s', l.book[id].tenantId, id) == VersionsOf(s, l.book[id].tenantId, id);
      }
    }
  }

  lemma OneMappingIsEntered(o: Ontology, s: Store, l: Ledger, c: Call, s': Store)
    requires Sound(o, s) && GeneratesFreshIds(s, c.op) && ConcernsOneMapping(c.op) && Agrees(s, l)
    requires s' == Apply(o, s, c.caller, c.op).0
    ensures Agrees(s', Entered(o, l, c))
  {
    var t, id := c.caller.tenantId, c.op.mappingId;
    assert AgreesAt(s, l.book, id);
    match Get(s.mappings, id, t)
    case None =>
    case Some(m) =>
      MappingCallIsEntered(o, s, l, c, m, l.book[id].body, s');
      hide ApplyToMapping, VersionsOf, Mirrors, Changed, Sound, GeneratesFreshIds;
      forall other
        ensures AgreesAt(s', Entered(o, l, c).book, other)
      {
        assert AgreesAt(s, l.book, other);
      }
  }

  lemma CallIsEntered(o: Ontology, s: Store, l: Ledger, c: Call, s': Store)
    requires Sound(o, s) && GeneratesFreshIds(s, c.op) && Agrees(s, l) && s' == Apply(o, s, c.caller, c.op).0
    ensures Agrees(s', Entered(o, l, c))
  {
    hide Sound, Agrees, ApplyToMapping, SuspendAll, Changed, GeneratesFreshIds;
    if c.op.CreateDraft? {
      CreationIsEntered(o, s, l, c, s');
    } else if c.op.SuspendAffectedByDrift? {
      SuspensionIsEntered(o, s, l, c, s');
    } else if c.op.RecordSnapshot? {
      RecordingIsEntered(o, s, l, c, s');
    } else if ConcernsOneMapping(c.op) {
      OneMappingIsEntered(o, s, l, c, s');
    }
  }

  /** Over every run the mappings are exactly those in the book: their state, whether they are suspended,
      and all drafts with author and approver, in order. */
  lemma {:induction false} RunsKeepTheBook(o: Ontology, calls: seq<Call>)
    requires FreshRun(o, EMPTY, calls)
    ensures Agrees(After(o, EMPTY, calls), Kept(o, calls))
    decreases |calls|
  {
    if calls != [] {
      hide Apply, GeneratesFreshIds, Entered, Agrees, Sound;
      var front, last := calls[..|calls| - 1], calls[|calls| - 1];
      LastCall(o, EMPTY, calls);
      RunsKeepTheBook(o, front);
      EmptyIsSound(o);
      ReachableStoresAreSound(o, EMPTY, front);
      CallIsEntered(o, After(o, EMPTY, front), Kept(o, front), last, After(o, EMPTY, calls));
    }
  }

  // ---- what is served -----------------------------------------------------------------------------

  /** After every run the production query serves exactly the caller's own ACTIVE, not suspended mappings in
      the book, and it serves the last draft, as drafted, by its author, with the approver of that
      draft. */
  lemma ProductionServesTheBook(o: Ontology, calls: seq<Call>, reader: Caller, id: Uuid)
    requires FreshRun(o, EMPTY, calls)
    ensures var answer := Apply(o, After(o, EMPTY, calls), reader, GetProductionVersion(id)).1;
            match Get(Kept(o, calls).book, id, reader.tenantId)
            case None => answer == Refused(NotFound(id))
            case Some(e) =>
              if !e.state.Active? || e.suspended then answer == Refused(NotProductionReady)
              else
                && e.drafts != [] && e.active == Some(|e.drafts|)
                && var d := e.drafts[|e.drafts| - 1];
                   && d.approver.Some?
                   && answer == Served(MappingVersion(id, |e.drafts|, d.document, d.author, d.approver))
  {
    var s, book := After(o, EMPTY, calls), Kept(o, calls).book;
    RunsKeepTheBook(o, calls);
    EmptyIsSound(o);
    ReachableStoresAreSound(o, EMPTY, calls);
    ProductionQueryIsExact(o, s, reader, id);
    hide Apply, Sound, After, Kept, SubmissionProblem;
    assert AgreesAt(s, book, id);
    var answer := Apply(o, s, reader, GetProductionVersion(id)).1;
    if answer.Served? {
      var versions := VersionsOf(s, reader.tenantId, id);
      var v := s.mappings[id].body.activeVersionId.value;
      assert versions[v] == answer.version && IsNewest(versions, v);
      assert TellsVersion(versions[v], id, book[id].body.drafts);
    }
  }

  /** What a transition needs, in the book's terms. */
  predicate Allows(e: Entry, op: Op) {
    match op
    case Approve(_) => e.state.PendingValidation?
    case Activate(_) => e.state.Approved?
    case Deprecate(_) => e.state.Active?
    case Reject(_) => e.state.Draft? || e.state.PendingValidation?
    case _ => false
  }

  /** A transition is answered with the mapping in its new state exactly when the entry allows it, and is
      refused for its current state otherwise; a further version gets the next number. */
  lemma TransitionsFollowTheBook(o: Ontology, calls: seq<Call>, caller: Caller, op: Op)
    requires FreshRun(o, EMPTY, calls) && GeneratesFreshIds(After(o, EMPTY, calls), op)
    requires op.Approve? || op.Activate? || op.Deprecate? || op.Reject? || op.CreateNewVersion?
    ensures var answer := Apply(o, After(o, EMPTY, calls), caller, op).1;
            match Get(Kept(o, calls).book, op.mappingId, caller.tenantId)
            case None => answer == Refused(NotFound(op.mappingId))
            case Some(e) =>
              if op.CreateNewVersion? then answer == VersionAdded(|e.drafts| + 1)
              else if Allows(e, op) then
                answer.Updated? && answer.mapping.state == Changed(o, Kept(o, calls).snapshots, caller, op, e).state
              else answer == Refused(InvalidTransition(e.state))
  {
    var s, book := After(o, EMPTY, calls), Kept(o, calls).book;
    RunsKeepTheBook(o, calls);
    EmptyIsSound(o);
    ReachableStoresAreSound(o, EMPTY, calls);
    assert AgreesAt(s, book, op.mappingId);
    match Get(s.mappings, op.mappingId, caller.tenantId)
    case None =>
    case Some(m) =>
      var newest := NewestOf(o, s, caller.tenantId, op.mappingId, m);
      hide Sound, After, Kept, VersionsOf, LatestOf, HighestNumber, SubmissionProblem, NumberedFromOne, MappingSound;
      assert |VersionsOf(s, caller.tenantId, op.mappingId)| == |book[op.mappingId].body.drafts|;
  }
}

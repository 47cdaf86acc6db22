/** What connections are, by the calls alone: a book of settings without credentials, reference keys or
    pools, which the whole machinery of the manager turns out to implement. */
module ConnectionBook {
  import opened Common
  import opened Repository
  import opened PoolRegistry
  import opened Connections
  import opened ConnectionSafety

  /** What a caller knows of a connection. */
  datatype Settings = Settings(address: Address, secret: string, status: Status, lastValidatedAt: Option<int>,
                               lastError: Option<string>)

  type Book = Table<Settings>

  /** What one call does to the settings of its connection. */
  function Changed(s: Settings, op: Op): Settings
    requires !op.Register? && !op.Delete?
  {
    match op
    case GetOrCreateEngine(_) => s
    case Validate(_, health) =>
      s.(status := if health.healthy then Active else Error, lastValidatedAt := Some(health.checkedAt),
         lastError := if health.healthy then None else Some(health.errorSummary))
    case Enable(_) => if s.lastValidatedAt.None? then s else s.(status := Active)
    case Disable(_) => s.(status := Disabled)
    case Rotate(_, newSecretValue, _, _, _) => s.(secret := newSecretValue, status := PendingValidation)
  }

  function Entered(book: Book, c: Call): Book {
    if c.op.Register? then
      book[c.op.connectionId :=
             Row(c.tenantId, Settings(c.op.address, c.op.secretValue, PendingValidation, None, None))]
    else
      match Get(book, c.op.id, c.tenantId)
      case None => book
      case Some(s) =>
        if c.op.Delete? then book - {c.op.id} else book[c.op.id := Row(c.tenantId, Changed(s, c.op))]
  }

  function Booked(calls: seq<Call>): Book {
    if calls == [] then map[] else Entered(Booked(calls[..|calls| - 1]), calls[|calls| - 1])
  }

  // ---- the manager keeps the book -----------------------------------------------------------------

  /** The connection shows these settings, and an engine built for it now would use them. */
  predicate Shows(w: World, tenantId: Uuid, c: Connection, s: Settings) {
    && c.address == s.address && c.status == s.status && c.lastValidatedAt == s.lastValidatedAt
    && c.lastError == s.lastError && ResolveTarget(w, c, tenantId) == Ok(ConnectionTarget(s.address, s.secret))
  }

  ghost predicate AgreesAt(w: World, book: Book, id: Uuid) {
    && (id in w.connections <==> id in book)
    && (id in book ==>
          && w.connections[id].tenantId == book[id].tenantId
          && Shows(w, book[id].tenantId, w.connections[id].body, book[id].body))
  }

  ghost predicate Agrees(w: World, book: Book) {
    forall id :: AgreesAt(w, book, id)
  }

  /** Nothing an engine of the connection depends on has changed. */
  ghost predicate Untouched(w: World, w': World, id: Uuid) {
    && (id in w.connections <==> id in w'.connections)
    && (id in w.connections ==>
          && w'.connections[id] == w.connections[id]
          && var t, c := w.connections[id].tenantId, w.connections[id].body;
             ResolveTarget(w', c, t) == ResolveTarget(w, c, t))
  }

  lemma RegisterTouchesOne(w: World, tenantId: Uuid, op: Op, id: Uuid)
    requires Coherent(w) && op.Register? && GeneratesFreshIds(w, op) && id != op.connectionId
    ensures Untouched(w, AfterRegister(w, tenantId, op), id)
  {
  }

  lemma RotateTouchesOne(w: World, tenantId: Uuid, op: Op, c: Connection, current: Credential, id: Uuid)
    requires Coherent(w) && op.Rotate? && GeneratesFreshIds(w, op) && id != op.id
    requires Get(w.connections, op.id, tenantId) == Some(c)
    requires Get(w.credentials, c.credentialId, tenantId) == Some(current)
    ensures Untouched(w, AfterRotate(w, tenantId, op, c, current), id)
  {
    if id in w.connections {
      assert w.connections[id].body.credentialId != c.credentialId;
      assert SecretKeyOf(w, id) != current.referenceKey;
    }
  }

  lemma DeleteTouchesOne(w: World, tenantId: Uuid, op: Op, c: Connection, id: Uuid)
    requires Coherent(w) && op.Delete? && Get(w.connections, op.id, tenantId) == Some(c) && id != op.id
    ensures Untouched(w, AfterDelete(w, tenantId, op.id, c), id)
  {
    if id in w.connections {
      assert w.connections[id].body.credentialId != c.credentialId;
      assert SecretKeyOf(w, id) != SecretKeyOf(w, op.id);
    }
  }

  /** One call concerns one connection. */
  lemma CallTouchesOne(w: World, call: Call, id: Uuid, w': World)
    requires Coherent(w) && GeneratesFreshIds(w, call.op) && w' == Apply(w, call.tenantId, call.op).0
    requires id != if call.op.Register? then call.op.connectionId else call.op.id
    ensures Untouched(w, w', id)
  {
    var t, op := call.tenantId, call.op;
    if op.Register? {
      RegisterTouchesOne(w, t, op, id);
    } else {
      match Get(w.connections, op.id, t)
      case None =>
      case Some(c) =>
        if op.Rotate? {
          var current := Get(w.credentials, c.credentialId, t);
          if current.Some? {
            RotateTouchesOne(w, t, op, c, current.value, id);
          }
        } else if op.Delete? {
          DeleteTouchesOne(w, t, op, c, id);
        }
    }
  }

  lemma RegisterIsEntered(w: World, book: Book, tenantId: Uuid, op: Op)
    requires Coherent(w) && op.Register? && GeneratesFreshIds(w, op) && AgreesAt(w, book, op.connectionId)
    ensures AgreesAt(AfterRegister(w, tenantId, op), Entered(book, Call(tenantId, op)), op.connectionId)
  {
  }

  lemma ChangeIsEntered(w: World, book: Book, tenantId: Uuid, op: Op, c: Connection, w': World)
    requires Coherent(w) && !op.Register? && GeneratesFreshIds(w, op) && AgreesAt(w, book, op.id)
    requires Get(w.connections, op.id, tenantId) == Some(c) && w' == ApplyTo(w, tenantId, op, c).0
    ensures AgreesAt(w', Entered(book, Call(tenantId, op)), op.id)
  {
    match op
    case GetOrCreateEngine(_) =>
    case Validate(_, _) =>
    case Enable(_) =>
    case Disable(_) =>
    case Rotate(_, _, _, _, _) =>
    case Delete(_) =>
  }

  lemma CallIsEntered(w: World, book: Book, call: Call, w': World)
    requires Coherent(w) && GeneratesFreshIds(w, call.op) && w' == Apply(w, call.tenantId, call.op).0
    requires Agrees(w, book)
    ensures Agrees(w', Entered(book, call))
  {
    var concerned := if call.op.Register? then call.op.connectionId else call.op.id;
    assert AgreesAt(w, book, concerned);
    if call.op.Register? {
      RegisterIsEntered(w, book, call.tenantId, call.op);
    } else {
      match Get(w.connections, call.op.id, call.tenantId)
      case None =>
      case Some(c) => ChangeIsEntered(w, book, call.tenantId, call.op, c, w');
    }
    forall id
      ensures AgreesAt(w', Entered(book, call), id)
    {
      assert AgreesAt(w, book, id);
      if id != concerned {
        CallTouchesOne(w, call, id, w');
      }
    }
  }

  /** Over every run the connections are exactly those in the book, with exactly its settings: address,
      status, validation and, for any engine built now, the secret. */
  lemma {:induction false} RunsKeepTheBook(calls: seq<Call>)
    requires FreshRun(EMPTY, calls)
    ensures Agrees(AfterCalls(EMPTY, calls), Booked(calls))
    decreases |calls|
  {
    if calls != [] {
      var front, last := calls[..|calls| - 1], calls[|calls| - 1];
      LastCall(EMPTY, calls);
      RunsKeepTheBook(front);
      ReachableWorldsAreCoherent(EMPTY, front);
      CallIsEntered(AfterCalls(EMPTY, front), Booked(front), last, AfterCalls(EMPTY, calls));
    }
  }

  // ---- engines and answers ------------------------------------------------------------------------

  /** After every run an engine is handed out exactly for the caller's own, not disabled connections in the
      book, and it was built with the address and the secret there. */
  lemma EnginesUseTheBook(calls: seq<Call>, tenantId: Uuid, id: Uuid)
    requires FreshRun(EMPTY, calls)
    ensures var (after, answer) := Apply(AfterCalls(EMPTY, calls), tenantId, GetOrCreateEngine(id));
            match Get(Booked(calls), id, tenantId)
            case None => answer == Refused(NotFound(id))
            case Some(s) =>
              if s.status.Disabled? then answer == Refused(IsDisabled)
              else
                && answer.EngineReady? && answer.engine < |after.pool.built|
                && after.pool.built[answer.engine].target == ConnectionTarget(s.address, s.secret)
  {
    var w := AfterCalls(EMPTY, calls);
    RunsKeepTheBook(calls);
    assert AgreesAt(w, Booked(calls), id);
    EnginesAreNeverStale(calls, tenantId, id);
  }

  /** What the other calls answer is the new entry in the book. */
  lemma AnswersShowTheBook(calls: seq<Call>, tenantId: Uuid, op: Op)
    requires FreshRun(EMPTY, calls) && GeneratesFreshIds(AfterCalls(EMPTY, calls), op) && !op.GetOrCreateEngine?
    ensures var (after, answer) := Apply(AfterCalls(EMPTY, calls), tenantId, op);
            var book := Entered(Booked(calls), Call(tenantId, op));
            if op.Register? then
              && answer.Connected? && op.connectionId in book
              && Shows(after, tenantId, answer.connection, book[op.connectionId].body)
            else
              match Get(Booked(calls), op.id, tenantId)
              case None => answer == Refused(NotFound(op.id))
              case Some(s) =>
                if op.Delete? then answer == Deleted
                else if op.Enable? && s.lastValidatedAt.None? then answer == Refused(NotReady)
                else answer.Connected? && op.id in book && Shows(after, tenantId, answer.connection, book[op.id].body)
  {
    var w := AfterCalls(EMPTY, calls);
    var w' := Apply(w, tenantId, op).0;
    RunsKeepTheBook(calls);
    ReachableWorldsAreCoherent(EMPTY, calls);
    CallIsEntered(w, Booked(calls), Call(tenantId, op), w');
    var concerned := if op.Register? then op.connectionId else op.id;
    assert AgreesAt(w, Booked(calls), concerned);
    assert AgreesAt(w', Entered(Booked(calls), Call(tenantId, op)), concerned);
  }

  // ---- the last secret ----------------------------------------------------------------------------

  /** The call registers the connection or rotates its secret. */
  predicate GivesSecret(c: Call, tenantId: Uuid, id: Uuid) {
    c.tenantId == tenantId && if c.op.Register? then c.op.connectionId == id else c.op.Rotate? && c.op.id == id
  }

  function GivenSecret(op: Op): string
    requires op.Register? || op.Rotate?
  {
    if op.Register? then op.secretValue else op.newSecretValue
  }

  lemma EnteredSecret(book: Book, c: Call, tenantId: Uuid, id: Uuid)
    requires Get(Entered(book, c), id, tenantId).Some?
    ensures var secret := Get(Entered(book, c), id, tenantId).value.secret;
            if GivesSecret(c, tenantId, id) then secret == GivenSecret(c.op)
            else Get(book, id, tenantId).Some? && secret == Get(book, id, tenantId).value.secret
  {
  }

  /** The secret in the book is the one of the last call that registered the connection or rotated it. */
  lemma {:induction false} BookHoldsTheLastSecret(calls: seq<Call>, tenantId: Uuid, id: Uuid, i: nat)
    requires Get(Booked(calls), id, tenantId).Some?
    requires i < |calls| && GivesSecret(calls[i], tenantId, id)
    requires forall j :: i < j < |calls| ==> !GivesSecret(calls[j], tenantId, id)
    ensures Get(Booked(calls), id, tenantId).value.secret == GivenSecret(calls[i].op)
    decreases |calls|
  {
    hide Entered, GivesSecret;
    var n := |calls| - 1;
    EnteredSecret(Booked(calls[..n]), calls[n], tenantId, id);
    if i < n {
      BookHoldsTheLastSecret(calls[..n], tenantId, id, i);
    }
  }

  /** So the password of every engine handed out is the last secret given for its connection. */
  lemma EnginesUseTheLastSecret(calls: seq<Call>, tenantId: Uuid, id: Uuid, i: nat)
    requires FreshRun(EMPTY, calls)
    requires i < |calls| && GivesSecret(calls[i], tenantId, id)
    requires forall j :: i < j < |calls| ==> !GivesSecret(calls[j], tenantId, id)
    ensures var (after, answer) := Apply(AfterCalls(EMPTY, calls), tenantId, GetOrCreateEngine(id));
            answer.EngineReady? ==>
              && answer.engine < |after.pool.built|
              && after.pool.built[answer.engine].target.password == GivenSecret(calls[i].op)
  {
    EnginesUseTheBook(calls, tenantId, id);
    if Get(Booked(calls), id, tenantId).Some? {
      BookHoldsTheLastSecret(calls, tenantId, id, i);
    }
  }
}

/** The session attribute bag (`spark.Session`): one string-to-object map
    in which the derived fields are memoised under fixed keys the first
    time they are read. The clock and the identifier generator are
    parameters (`now`, `freshId`). Reading a derived key that holds an
    object of the wrong class throws `ClassCastException` in the source;
    here it is a `Failure` and the map is left as it was. */
module Sessions {
  import opened Wrappers
  import opened Values

  const CreationTimeKey: string := "creationTime"
  const SessionIdKey: string := "sessionId"
  const LastAccessedTimeKey: string := "lastAccessedTime"
  const MaxInactiveIntervalKey: string := "maxInactiveInterval"
  const IsNewKey: string := "isNew"

  /** Thirty minutes, in seconds. */
  const DefaultMaxInactiveInterval: int := 1800

  datatype Session = Session(attributes: map<string, Value>)

  datatype CastError = ClassCast(key: string)

  /** The session after a read, with the value read. */
  datatype Read<T> = Read(session: Session, value: T)

  /** The constructor: adopt the stored object if it is a map, otherwise
      start from an empty map. */
  function Adopt(existing: Option<Value>): (s: Session)
    ensures existing.Some? && existing.value.MapValue? ==> s.attributes == existing.value.entries
    ensures !(existing.Some? && existing.value.MapValue?) ==> s.attributes == map[]
  {
    match existing
    case Some(MapValue(entries)) => Session(entries)
    case _ => Session(map[])
  }

  function Attribute(s: Session, name: string): (r: Option<Value>)
    ensures r.Some? <==> name in s.attributes
    ensures r.Some? ==> r.value == s.attributes[name]
  {
    Wrappers.Get(s.attributes, name)
  }

  function SetAttribute(s: Session, name: string, value: Value): (t: Session)
    ensures Attribute(t, name) == Some(value)
    ensures forall k :: k != name ==> Attribute(t, k) == Attribute(s, k)
  {
    Session(s.attributes[name := value])
  }

  function RemoveAttribute(s: Session, name: string): (t: Session)
    ensures Attribute(t, name) == None
    ensures forall k :: k != name ==> Attribute(t, k) == Attribute(s, k)
  {
    Session(s.attributes - {name})
  }

  /** The names of all stored attributes, derived keys included. */
  function AttributeNames(s: Session): (names: set<string>)
    ensures forall k :: k in names <==> Attribute(s, k).Some?
  {
    s.attributes.Keys
  }

  /** Read a `Long` stored under `key`, storing `now` there first when unset. */
  function MemoizedTime(s: Session, key: string, now: int): (r: Result<Read<int>, CastError>)
    ensures Attribute(s, key).None? ==> r == Success(Read(SetAttribute(s, key, LongValue(now)), now))
    ensures Attribute(s, key).Some? && Attribute(s, key).value.LongValue? ==>
              r == Success(Read(s, Attribute(s, key).value.long))
    ensures Attribute(s, key).Some? && !Attribute(s, key).value.LongValue? ==> r == Failure(ClassCast(key))
  {
    match Attribute(s, key)
    case None => Success(Read(SetAttribute(s, key, LongValue(now)), now))
    case Some(LongValue(t)) => Success(Read(s, t))
    case Some(_) => Failure(ClassCast(key))
  }

  function CreationTime(s: Session, now: int): (r: Result<Read<int>, CastError>)
    ensures r.Success? ==> Attribute(r.value.session, CreationTimeKey) == Some(LongValue(r.value.value))
    ensures r.Success? ==> forall k :: k != CreationTimeKey ==> Attribute(r.value.session, k) == Attribute(s, k)
    ensures r.Failure? <==> Attribute(s, CreationTimeKey).Some? && !Attribute(s, CreationTimeKey).value.LongValue?
    ensures Attribute(s, CreationTimeKey).None? ==> r.Success? && r.value.value == now
    ensures Attribute(s, CreationTimeKey).Some? && Attribute(s, CreationTimeKey).value.LongValue? ==>
              r == Success(Read(s, Attribute(s, CreationTimeKey).value.long))
  {
    MemoizedTime(s, CreationTimeKey, now)
  }

  function LastAccessedTime(s: Session, now: int): (r: Result<Read<int>, CastError>)
    ensures r.Success? ==> Attribute(r.value.session, LastAccessedTimeKey) == Some(LongValue(r.value.value))
    ensures r.Success? ==> forall k :: k != LastAccessedTimeKey ==> Attribute(r.value.session, k) == Attribute(s, k)
    ensures r.Failure? <==> Attribute(s, LastAccessedTimeKey).Some? && !Attribute(s, LastAccessedTimeKey).value.LongValue?
    ensures Attribute(s, LastAccessedTimeKey).None? ==> r.Success? && r.value.value == now
    ensures Attribute(s, LastAccessedTimeKey).Some? && Attribute(s, LastAccessedTimeKey).value.LongValue? ==>
              r == Success(Read(s, Attribute(s, LastAccessedTimeKey).value.long))
  {
    MemoizedTime(s, LastAccessedTimeKey, now)
  }

  /** The session id, generated from `freshId` and stored on first read. */
  function Id(s: Session, freshId: string): (r: Result<Read<string>, CastError>)
    ensures r.Success? ==> Attribute(r.value.session, SessionIdKey) == Some(Text(r.value.value))
    ensures r.Success? ==> forall k :: k != SessionIdKey ==> Attribute(r.value.session, k) == Attribute(s, k)
    ensures r.Failure? <==> Attribute(s, SessionIdKey).Some? && !Attribute(s, SessionIdKey).value.Text?
    ensures Attribute(s, SessionIdKey).None? ==> r.Success? && r.value.value == freshId
    ensures Attribute(s, SessionIdKey).Some? && Attribute(s, SessionIdKey).value.Text? ==>
              r == Success(Read(s, Attribute(s, SessionIdKey).value.text))
  {
    match Attribute(s, SessionIdKey)
    case None => Success(Read(SetAttribute(s, SessionIdKey, Text(freshId)), freshId))
    case Some(Text(id)) => Success(Read(s, id))
    case Some(_) => Failure(ClassCast(SessionIdKey))
  }

  /** The stored `Integer` interval, 1800 when unset. Reading never stores. */
  function MaxInactiveInterval(s: Session): (r: Result<int, CastError>)
    ensures Attribute(s, MaxInactiveIntervalKey).None? ==> r == Success(DefaultMaxInactiveInterval)
    ensures Attribute(s, MaxInactiveIntervalKey).Some? && Attribute(s, MaxInactiveIntervalKey).value.IntValue? ==>
              r == Success(Attribute(s, MaxInactiveIntervalKey).value.integer)
    ensures r.Failure? <==> Attribute(s, MaxInactiveIntervalKey).Some? && !Attribute(s, MaxInactiveIntervalKey).value.IntValue?
  {
    match Attribute(s, MaxInactiveIntervalKey)
    case None => Success(DefaultMaxInactiveInterval)
    case Some(IntValue(i)) => Success(i)
    case Some(_) => Failure(ClassCast(MaxInactiveIntervalKey))
  }

  function SetMaxInactiveInterval(s: Session, interval: int): (t: Session)
    ensures MaxInactiveInterval(t) == Success(interval)
    ensures forall k :: k != MaxInactiveIntervalKey ==> Attribute(t, k) == Attribute(s, k)
  {
    SetAttribute(s, MaxInactiveIntervalKey, IntValue(interval))
  }

  /** Clears every attribute, derived keys included. */
  function Invalidate(s: Session): (t: Session)
    ensures AttributeNames(t) == {}
    ensures forall k :: Attribute(t, k).None?
  {
    Session(map[])
  }

  /** The stored `Boolean` under "isNew", true when unset. */
  function IsNew(s: Session): (r: Result<bool, CastError>)
    ensures Attribute(s, IsNewKey).None? ==> r == Success(true)
    ensures Attribute(s, IsNewKey).Some? && Attribute(s, IsNewKey).value.BoolValue? ==>
              r == Success(Attribute(s, IsNewKey).value.flag)
    ensures r.Failure? <==> Attribute(s, IsNewKey).Some? && !Attribute(s, IsNewKey).value.BoolValue?
  {
    match Attribute(s, IsNewKey)
    case None => Success(true)
    case Some(BoolValue(b)) => Success(b)
    case Some(_) => Failure(ClassCast(IsNewKey))
  }

  // ---------------------------------------------------------------------
  // Memoisation

  /** Once read, the creation time is fixed: a later read, whatever the
      clock says, returns the same value and stores nothing. */
  lemma CreationTimeIsMemoized(s: Session, now: int, later: int)
    requires CreationTime(s, now).Success?
    ensures var first := CreationTime(s, now).value;
            CreationTime(first.session, later) == Success(first)
  {
  }

  /** The last-accessed time never advances: every read after the first
      returns the first read's value. */
  lemma LastAccessedTimeNeverAdvances(s: Session, now: int, later: int)
    requires LastAccessedTime(s, now).Success?
    ensures var first := LastAccessedTime(s, now).value;
            LastAccessedTime(first.session, later) == Success(first)
  {
  }

  /** The id is generated once; a later read returns it whatever id
      source is offered, and the key is then listed among the attributes. */
  lemma IdIsStable(s: Session, freshId: string, otherId: string)
    requires Id(s, freshId).Success?
    ensures var first := Id(s, freshId).value;
            Id(first.session, otherId) == Success(first)
            && SessionIdKey in AttributeNames(first.session)
  {
  }

  /** Invalidation resets identity: the next id and creation-time reads
      regenerate from the supplied sources and store them again. */
  lemma InvalidateResetsIdentity(s: Session, freshId: string, now: int)
    ensures AttributeNames(Invalidate(s)) == {}
    ensures Id(Invalidate(s), freshId) == Success(Read(Session(map[SessionIdKey := Text(freshId)]), freshId))
    ensures CreationTime(Invalidate(s), now) == Success(Read(Session(map[CreationTimeKey := LongValue(now)]), now))
    ensures MaxInactiveInterval(Invalidate(s)) == Success(DefaultMaxInactiveInterval)
    ensures IsNew(Invalidate(s)) == Success(true)
  {
  }

  // ---------------------------------------------------------------------
  // Sequences of calls on one session

  /** Every public operation of the session, with its inputs. */
  datatype SessionCall =
    | Put(name: string, value: Value)
    | Remove(name: string)
    | Get(name: string)
    | Names
    | ReadCreationTime(now: int)
    | ReadId(freshId: string)
    | ReadLastAccessedTime(now: int)
    | ReadMaxInactiveInterval
    | PutMaxInactiveInterval(interval: int)
    | ReadIsNew
    | Clear

  /** The session after one call; a call that throws leaves it unchanged. */
  function Apply(s: Session, call: SessionCall): Session {
    match call
    case Put(n, v) => SetAttribute(s, n, v)
    case Remove(n) => RemoveAttribute(s, n)
    case Get(_) => s
    case Names => s
    case ReadCreationTime(now) =>
      (match CreationTime(s, now) case Success(read) => read.session case Failure(_) => s)
    case ReadId(freshId) =>
      (match Id(s, freshId) case Success(read) => read.session case Failure(_) => s)
    case ReadLastAccessedTime(now) =>
      (match LastAccessedTime(s, now) case Success(read) => read.session case Failure(_) => s)
    case ReadMaxInactiveInterval => s
    case PutMaxInactiveInterval(i) => SetMaxInactiveInterval(s, i)
    case ReadIsNew => s
    case Clear => Invalidate(s)
  }

  function ApplyAll(s: Session, calls: seq<SessionCall>): Session
    decreases |calls|
  {
    if |calls| == 0 then s else ApplyAll(Apply(s, calls[0]), calls[1..])
  }

  /** A call that stores something other than `true` under "isNew". Only a
      caller's explicit `attribute("isNew", ...)` is one. */
  predicate MarksNotNew(call: SessionCall) {
    call.Put? && call.name == IsNewKey && call.value != BoolValue(true)
  }

  /** Nothing in the session itself ever makes `isNew()` false: starting
      from a new session, it stays new unless a caller stores a non-true
      value under "isNew". */
  lemma {:induction false} IsNewStaysTrue(s: Session, calls: seq<SessionCall>)
    requires IsNew(s) == Success(true)
    requires forall i :: 0 <= i < |calls| ==> !MarksNotNew(calls[i])
    ensures IsNew(ApplyAll(s, calls)) == Success(true)
    decreases |calls|
  {
    if |calls| > 0 {
      var next := Apply(s, calls[0]);
      assert IsNew(next) == Success(true) by {
        assert Attribute(next, IsNewKey) == Attribute(s, IsNewKey)
               || Attribute(next, IsNewKey) == None
               || Attribute(next, IsNewKey) == Some(BoolValue(true));
      }
      IsNewStaysTrue(next, calls[1..]);
    }
  }

  /** A call that can change the stored id: a write or removal of
      "sessionId", or invalidation. */
  predicate TouchesId(call: SessionCall) {
    (call.Put? && call.name == SessionIdKey) || (call.Remove? && call.name == SessionIdKey) || call.Clear?
  }

  /** Once read, the id survives every call that does not touch its key. */
  lemma {:induction false} IdSurvivesCalls(s: Session, freshId: string, calls: seq<SessionCall>, laterId: string)
    requires Id(s, freshId).Success?
    requires forall i :: 0 <= i < |calls| ==> !TouchesId(calls[i])
    ensures Id(ApplyAll(Id(s, freshId).value.session, calls), laterId).Success?
    ensures Id(ApplyAll(Id(s, freshId).value.session, calls), laterId).value.value == Id(s, freshId).value.value
    decreases |calls|
  {
    var first := Id(s, freshId).value;
    if |calls| > 0 {
      var next := Apply(first.session, calls[0]);
      assert Attribute(next, SessionIdKey) == Attribute(first.session, SessionIdKey);
      assert Id(next, freshId) == Success(Read(next, first.value));
      IdSurvivesCalls(next, freshId, calls[1..], laterId);
    }
  }
}

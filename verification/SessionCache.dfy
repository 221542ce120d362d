/**
 * Validating an access token against the session table with a cache in front of it. Reads, writes
 * and invalidations of the cache may silently fail, and a validation takes time.
 */
module SessionCache {
  import opened Base

  const MAX_CACHE_TTL_SECONDS := 300
  const MAX_CACHE_TTL_MS := 300_000

  datatype AccountStatus = Active | Suspended | Pending

  datatype Session = Session(user: Id, revoked: bool, expiresAt: int)

  /** A cached session: entries are only written for sessions that are not revoked. */
  datatype Entry = Entry(user: Id, expiresAt: int, status: AccountStatus, until: int)

  /** An access token, its `exp` claim in seconds. */
  datatype Token = Token(user: Id, session: Id, exp: Option<int>)

  datatype Verdict = Accepted | InvalidToken | Revoked | Expired | AccountSuspended | AccountPending

  type Cache = map<Id, Entry>

  datatype Tables = Tables(sessions: map<Id, Session>, statuses: map<Id, AccountStatus>)

  function StatusVerdict(status: AccountStatus): Verdict {
    match status
    case Active => Accepted
    case Suspended => AccountSuspended
    case Pending => AccountPending
  }

  function CachedVerdict(token: Token, e: Entry, now: int): Verdict {
    if e.user != token.user then InvalidToken
    else if e.expiresAt <= now then Expired
    else StatusVerdict(e.status)
  }

  function StatusOf(db: Tables, user: Id): AccountStatus {
    if user in db.statuses then db.statuses[user] else Active
  }

  function DatabaseVerdict(db: Tables, token: Token, now: int): Verdict {
    if token.session !in db.sessions || db.sessions[token.session].user != token.user then InvalidToken
    else
      var s := db.sessions[token.session];
      if s.revoked then Revoked
      else if s.expiresAt <= now then Expired
      else StatusVerdict(StatusOf(db, s.user))
  }

  /** The verdicts of the table, fact by fact; a user without a row of their own counts as active. */
  lemma TableVerdictsByTheFacts(db: Tables, token: Token, now: int)
    ensures var verdict, id := DatabaseVerdict(db, token, now), token.session;
      && (verdict == InvalidToken <==> id !in db.sessions || db.sessions[id].user != token.user)
      && (verdict == Revoked <==> id in db.sessions && db.sessions[id].user == token.user && db.sessions[id].revoked)
      && (verdict == Expired <==> (
            id in db.sessions && db.sessions[id].user == token.user && !db.sessions[id].revoked
            && db.sessions[id].expiresAt <= now))
      && (verdict == AccountSuspended <==> (
            id in db.sessions && db.sessions[id].user == token.user && !db.sessions[id].revoked
            && db.sessions[id].expiresAt > now && token.user in db.statuses && db.statuses[token.user] == Suspended))
      && (verdict == AccountPending <==> (
            id in db.sessions && db.sessions[id].user == token.user && !db.sessions[id].revoked
            && db.sessions[id].expiresAt > now && token.user in db.statuses && db.statuses[token.user] == Pending))
      && (verdict == Accepted <==> (
            id in db.sessions && db.sessions[id].user == token.user && !db.sessions[id].revoked
            && db.sessions[id].expiresAt > now && (token.user !in db.statuses || db.statuses[token.user] == Active)))
  {
  }

  /** The verdicts of the cache, which holds no revoked session. */
  lemma CacheVerdictsByTheFacts(token: Token, e: Entry, now: int)
    ensures var verdict := CachedVerdict(token, e, now);
      && (verdict == InvalidToken <==> e.user != token.user)
      && verdict != Revoked
      && (verdict == Expired <==> e.user == token.user && e.expiresAt <= now)
      && (verdict == AccountSuspended <==> e.user == token.user && e.expiresAt > now && e.status == Suspended)
      && (verdict == AccountPending <==> e.user == token.user && e.expiresAt > now && e.status == Pending)
      && (verdict == Accepted <==> e.user == token.user && e.expiresAt > now && e.status == Active)
  {
  }

  /** A miss, an entry past its time to live and an unreachable cache all read as nothing. */
  function Lookup(cache: Cache, session: Id, now: int, reachable: bool): Option<Entry> {
    if reachable && session in cache && now < cache[session].until then Some(cache[session]) else None
  }

  /** At most five minutes, and not past the token's own expiry. */
  function TtlSeconds(token: Token, now: int): int {
    Min(if token.exp.Some? then token.exp.value - now / 1000 else MAX_CACHE_TTL_SECONDS, MAX_CACHE_TTL_SECONDS)
  }

  /** A token without expiry is cached for 300 s; one with a claim for what is left of it in whole seconds, if less. */
  lemma TimeToLiveByTheToken(token: Token, now: int, left: int)
    requires token.exp.Some? ==> (token.exp.value - left) * 1000 <= now < (token.exp.value - left + 1) * 1000
    ensures TtlSeconds(token, now) == if token.exp.None? || left >= 300 then 300 else left
  {
    if token.exp.Some? {
      assert now / 1000 == token.exp.value - left;
    }
  }

  /** The time to live is computed with the verdict and starts to run when the write arrives. */
  function Fill(
      cache: Cache, token: Token, s: Session, status: AccountStatus, computedAt: int, now: int, reachable: bool): Cache {
    var ttl := TtlSeconds(token, computedAt);
    if ttl <= 0 || !reachable then cache
    else cache[token.session := Entry(s.user, s.expiresAt, status, now + ttl * 1000)]
  }

  function Invalidate(cache: Cache, session: Id, reachable: bool): Cache {
    if reachable then cache - {session} else cache
  }

  predicate Unrevoked(db: Tables, id: Id) {
    id in db.sessions && !db.sessions[id].revoked
  }

  function Revoke(db: Tables, session: Id): Tables {
    if session in db.sessions then db.(sessions := db.sessions[session := db.sessions[session].(revoked := true)]) else db
  }

  function Rotate(db: Tables, session: Id, expiresAt: int): Tables {
    if session in db.sessions
    then db.(sessions := db.sessions[session := db.sessions[session].(expiresAt := expiresAt)])
    else db
  }

  // ---------------------------------------------------------------------------------------------
  // The services
  // ---------------------------------------------------------------------------------------------

  class SessionStore {
    var db: Tables
    var cache: Cache

    constructor ()
      ensures db == Tables(map[], map[]) && cache == map[]
    {
      db, cache := Tables(map[], map[]), map[];
    }

    method Get(session: Id, now: int, reachable: bool) returns (entry: Option<Entry>)
      ensures entry == Lookup(cache, session, now, reachable)
    {
      if !reachable || session !in cache || cache[session].until <= now {
        return None;
      }
      return Some(cache[session]);
    }

    method Set(session: Id, user: Id, expiresAt: int, status: AccountStatus, ttlSeconds: int, now: int, reachable: bool)
      modifies `cache
      ensures ttlSeconds <= 0 || !reachable ==> cache == old(cache)
      ensures ttlSeconds > 0 && reachable ==> (
        cache == old(cache)[session := Entry(user, expiresAt, status, now + ttlSeconds * 1000)])
    {
      if ttlSeconds <= 0 {
        return;
      }
      if reachable {
        cache := cache[session := Entry(user, expiresAt, status, now + ttlSeconds * 1000)];
      }
    }

    /** Answers from the cache if it can, from the table if not, and then fills the cache. */
    method Validate(token: Token, now: int, writtenAt: int, readable: bool, writable: bool) returns (verdict: Verdict)
      modifies `cache
      ensures var hit := Lookup(old(cache), token.session, now, readable);
        verdict == if hit.Some? then CachedVerdict(token, hit.value, now) else DatabaseVerdict(db, token, now)
      ensures Lookup(old(cache), token.session, now, readable).None? ==> (verdict == Accepted <==> (
        token.session in db.sessions && db.sessions[token.session].user == token.user
        && !db.sessions[token.session].revoked && db.sessions[token.session].expiresAt > now
        && (token.user !in db.statuses || db.statuses[token.user] == Active)))
      ensures Lookup(old(cache), token.session, now, readable).Some? || verdict != Accepted ==> cache == old(cache)
      ensures Lookup(old(cache), token.session, now, readable).None? && verdict == Accepted ==> (
        var s := db.sessions[token.session];
        cache == Fill(old(cache), token, s, StatusOf(db, s.user), now, writtenAt, writable))
    {
      var hit := Get(token.session, now, readable);
      if hit.Some? {
        return CachedVerdict(token, hit.value, now);
      }
      verdict := DatabaseVerdict(db, token, now);
      if verdict == Accepted {
        var s := db.sessions[token.session];
        Set(token.session, s.user, s.expiresAt, StatusOf(db, s.user), TtlSeconds(token, now), writtenAt, writable);
      }
    }

    // Revoking and rotating start a row update and an invalidation side by side: these halves run in
    // either order, and other requests may come between them.

    method RevokeRow(session: Id)
      modifies `db
      ensures db == Revoke(old(db), session)
      ensures session in old(db).sessions ==> !Unrevoked(db, session)
      ensures forall id :: id != session ==> (Unrevoked(db, id) <==> Unrevoked(old(db), id))
    {
      if session in db.sessions && !db.sessions[session].revoked {
        db := db.(sessions := db.sessions[session := db.sessions[session].(revoked := true)]);
      }
      assert db.sessions == Revoke(old(db), session).sessions;
    }

    method RotateRow(session: Id, expiresAt: int)
      requires session in db.sessions
      modifies `db
      ensures db == Rotate(old(db), session, expiresAt)
      ensures forall id :: Unrevoked(db, id) <==> Unrevoked(old(db), id)
    {
      db := db.(sessions := db.sessions[session := db.sessions[session].(expiresAt := expiresAt)]);
    }

    method InvalidateEntry(session: Id, reachable: bool)
      modifies `cache
      ensures reachable ==> session !in cache
      ensures !reachable ==> cache == old(cache)
      ensures forall id :: id != session ==> (id in cache <==> id in old(cache)) && (id in cache ==> cache[id] == old(cache)[id])
    {
      if reachable {
        cache := cache - {session};
      }
    }
  }

  // ---------------------------------------------------------------------------------------------
  // Runs
  // ---------------------------------------------------------------------------------------------

  /** A validation that has read the session and, while open, may still write the cache. */
  datatype Flight = Flight(token: Token, session: Session, status: AccountStatus, startedAt: int, open: bool)

  datatype Change = Revocation | Rotation(expiresAt: int)

  /** A revocation or rotation; it has returned when both halves are done. */
  datatype Operation = Operation(session: Id, change: Change, rowDone: bool, entryDone: bool)

  /** Validations and operations are numbered as they start. */
  datatype State = State(db: Tables, cache: Cache, flights: seq<Flight>, operations: seq<Operation>)

  datatype Event =
    | Create(id: Id, user: Id, expiresAt: int)
    | SetStatus(user: Id, status: AccountStatus)
    | Start(id: Id, change: Change)
    | UpdateRow(operation: nat)
    | ClearEntry(operation: nat, reachable: bool)
    | ValidateCached(token: Token)
    | ReadSession(token: Token, reachable: bool)
    | FinishValidation(flight: nat, reachable: bool)

  datatype Timed = Timed(event: Event, now: int)

  function Changed(db: Tables, id: Id, change: Change): Tables {
    match change
    case Revocation => Revoke(db, id)
    case Rotation(expiresAt) => Rotate(db, id, expiresAt)
  }

  predicate RowIsDue(s: State, k: nat) {
    k < |s.operations| && !s.operations[k].rowDone
  }

  predicate EntryIsDue(s: State, k: nat) {
    k < |s.operations| && !s.operations[k].entryDone
  }

  predicate IsOpen(s: State, k: nat) {
    k < |s.flights| && s.flights[k].open
  }

  /** The halves of an operation and of a validation are events of their own, in any interleaving. */
  function Next(s: State, e: Event, now: int): State {
    match e
    case Create(id, user, expiresAt) =>
      if id in s.db.sessions then s else s.(db := s.db.(sessions := s.db.sessions[id := Session(user, false, expiresAt)]))
    case SetStatus(user, status) => s.(db := s.db.(statuses := s.db.statuses[user := status]))
    case Start(id, change) => s.(operations := s.operations + [Operation(id, change, false, false)])
    case UpdateRow(k) =>
      if !RowIsDue(s, k) then s
      else
        var op := s.operations[k];
        s.(db := Changed(s.db, op.session, op.change), operations := s.operations[k := op.(rowDone := true)])
    case ClearEntry(k, reachable) =>
      if !EntryIsDue(s, k) then s
      else
        var op := s.operations[k];
        s.(cache := Invalidate(s.cache, op.session, reachable), operations := s.operations[k := op.(entryDone := true)])
    case ValidateCached(_) => s
    case ReadSession(token, reachable) =>
      if Lookup(s.cache, token.session, now, reachable).Some? || DatabaseVerdict(s.db, token, now) != Accepted then s
      else
        var session := s.db.sessions[token.session];
        s.(flights := s.flights + [Flight(token, session, StatusOf(s.db, session.user), now, true)])
    case FinishValidation(k, reachable) =>
      if !IsOpen(s, k) then s
      else
        var f := s.flights[k];
        s.(cache := Fill(s.cache, f.token, f.session, f.status, f.startedAt, now, reachable), flights := s.flights[k := f.(open := false)])
  }

  /** The row half of a revocation revokes its session for good, that of a rotation moves its expiry; no other row changes. */
  lemma RowHalvesByChange(s: State, k: nat, now: int)
    requires k < |s.operations| && !s.operations[k].rowDone && s.operations[k].session in s.db.sessions
    ensures var op, db, after := s.operations[k], s.db, Next(s, UpdateRow(k), now).db;
      && after.statuses == db.statuses && after.sessions.Keys == db.sessions.Keys
      && (forall id :: id in db.sessions && id != op.session ==> after.sessions[id] == db.sessions[id])
      && after.sessions[op.session] == (
           match op.change
           case Revocation => Session(db.sessions[op.session].user, true, db.sessions[op.session].expiresAt)
           case Rotation(expiresAt) => Session(db.sessions[op.session].user, db.sessions[op.session].revoked, expiresAt))
  {
  }

  /** A validation gets under way exactly when the cache has no answer and the table accepts. */
  lemma ValidationsReadOnMisses(s: State, token: Token, reachable: bool, now: int)
    ensures var after := Next(s, ReadSession(token, reachable), now);
      var hit := reachable && token.session in s.cache && now < s.cache[token.session].until;
      && after.cache == s.cache && after.db == s.db && after.operations == s.operations
      && (hit || DatabaseVerdict(s.db, token, now) != Accepted ==> after.flights == s.flights)
      && (!hit && DatabaseVerdict(s.db, token, now) == Accepted ==>
            |after.flights| == |s.flights| + 1 && after.flights[..|s.flights|] == s.flights
            && after.flights[|s.flights|].token == token && after.flights[|s.flights|].open
            && after.flights[|s.flights|].session == s.db.sessions[token.session]
            && after.flights[|s.flights|].startedAt == now)
  {
  }

  /** Each half of an operation happens once, and a validation writes once. */
  lemma HalvesHappenOnce(s: State, k: nat, reachable: bool, now: int)
    ensures k >= |s.operations| || s.operations[k].rowDone ==> Next(s, UpdateRow(k), now) == s
    ensures k >= |s.operations| || s.operations[k].entryDone ==> Next(s, ClearEntry(k, reachable), now) == s
    ensures k >= |s.flights| || !s.flights[k].open ==> Next(s, FinishValidation(k, reachable), now) == s
    ensures k < |s.operations| ==> Next(s, UpdateRow(k), now).operations[k].rowDone
    ensures k < |s.operations| ==> Next(s, ClearEntry(k, reachable), now).operations[k].entryDone
    ensures k < |s.flights| ==> !Next(s, FinishValidation(k, reachable), now).flights[k].open
  {
  }

  const START := State(Tables(map[], map[]), map[], [], [])

  function Run(events: seq<Timed>): State {
    if events == [] then START
    else Next(Run(events[..|events| - 1]), events[|events| - 1].event, events[|events| - 1].now)
  }

  /** The event lets the token's bearer in. */
  predicate LetsIn(s: State, e: Event, now: int, token: Token) {
    match e
    case ValidateCached(t) =>
      var hit := Lookup(s.cache, t.session, now, true);
      t == token && hit.Some? && CachedVerdict(t, hit.value, now) == Accepted
    case FinishValidation(k, _) => IsOpen(s, k) && s.flights[k].token == token
    case _ => false
  }

  /** No validation takes longer than this between its read and its write. */
  predicate FinishesWithin(events: seq<Timed>, delay: nat) {
    forall i :: 0 <= i < |events| ==> FinishedInTime(Run(events[..i]), events[i].event, events[i].now, delay)
  }

  predicate FinishedInTime(s: State, e: Event, now: int, delay: nat) {
    e.FinishValidation? && IsOpen(s, e.flight) ==> now <= s.flights[e.flight].startedAt + delay
  }

  // ---------------------------------------------------------------------------------------------
  // Bounded staleness
  // ---------------------------------------------------------------------------------------------

  /** The table held an unrevoked session of an active user like this. */
  predicate Holds(db: Tables, id: Id, user: Id, expiresAt: int) {
    && id in db.sessions && db.sessions[id] == Session(user, false, expiresAt)
    && StatusOf(db, user) == Active
  }

  /** At the i-th event, at or after `since`, the table held the session, and it had not expired. */
  predicate HeldAt(events: seq<Timed>, i: int, since: int, id: Id, user: Id, expiresAt: int) {
    0 <= i < |events| && since <= events[i].now < expiresAt && Holds(Run(events[..i]).db, id, user, expiresAt)
  }

  ghost predicate HeldSince(events: seq<Timed>, since: int, id: Id, user: Id, expiresAt: int) {
    exists i :: HeldAt(events, i, since, id, user, expiresAt)
  }

  ghost predicate EntryJustified(events: seq<Timed>, id: Id, e: Entry, delay: nat) {
    e.status == Active && HeldSince(events, e.until - MAX_CACHE_TTL_MS - delay, id, e.user, e.expiresAt)
  }

  ghost predicate FlightJustified(events: seq<Timed>, f: Flight) {
    && f.status == Active && f.session.user == f.token.user
    && HeldSince(events, f.startedAt, f.token.session, f.session.user, f.session.expiresAt)
  }

  ghost predicate Justified(events: seq<Timed>, s: State, delay: nat) {
    && (forall id :: id in s.cache ==> EntryJustified(events, id, s.cache[id], delay))
    && (forall k :: 0 <= k < |s.flights| ==> FlightJustified(events, s.flights[k]))
  }

  lemma LaterStillHeld(events: seq<Timed>, last: Timed, since: int, earlier: int, id: Id, user: Id, expiresAt: int)
    requires HeldSince(events, since, id, user, expiresAt) && earlier <= since
    ensures HeldSince(events + [last], earlier, id, user, expiresAt)
  {
    hide Run, Holds;
    var i :| HeldAt(events, i, since, id, user, expiresAt);
    assert (events + [last])[..i] == events[..i];
    assert HeldAt(events + [last], i, earlier, id, user, expiresAt);
  }

  lemma RunOfAppend(events: seq<Timed>, last: Timed)
    ensures Run(events + [last]) == Next(Run(events), last.event, last.now)
  {
    assert (events + [last])[..|events|] == events;
  }

  /** An entry is either an old one or comes from a validation that finishes now. */
  lemma EntryStaysJustified(events: seq<Timed>, last: Timed, s: State, delay: nat, id: Id)
    requires Justified(events, s, delay) && FinishedInTime(s, last.event, last.now, delay)
    requires id in Next(s, last.event, last.now).cache
    ensures EntryJustified(events + [last], id, Next(s, last.event, last.now).cache[id], delay)
  {
    hide HeldSince, DatabaseVerdict, Lookup;
    var e := Next(s, last.event, last.now).cache[id];
    if id in s.cache && s.cache[id] == e {
      var since := e.until - MAX_CACHE_TTL_MS - delay;
      LaterStillHeld(events, last, since, since, id, e.user, e.expiresAt);
    } else {
      var f := s.flights[last.event.flight];
      assert FlightJustified(events, f);
      LaterStillHeld(events, last, f.startedAt, e.until - MAX_CACHE_TTL_MS - delay, id, e.user, e.expiresAt);
    }
  }

  /** A validation under way is an old one or has read the table just now. */
  lemma FlightStaysJustified(events: seq<Timed>, last: Timed, s: State, delay: nat, k: nat)
    requires s == Run(events) && Justified(events, s, delay)
    requires k < |Next(s, last.event, last.now).flights|
    ensures FlightJustified(events + [last], Next(s, last.event, last.now).flights[k])
  {
    hide Run, Fill, Lookup, EntryJustified;
    var f := Next(s, last.event, last.now).flights[k];
    if k < |s.flights| {
      assert FlightJustified(events, s.flights[k]);
      LaterStillHeld(events, last, f.startedAt, f.startedAt, f.token.session, f.session.user, f.session.expiresAt);
    } else {
      assert (events + [last])[..|events|] == events;
      assert HeldAt(events + [last], |events|, f.startedAt, f.token.session, f.session.user, f.session.expiresAt);
    }
  }

  lemma StepStaysJustified(events: seq<Timed>, last: Timed, delay: nat)
    requires Justified(events, Run(events), delay)
    requires FinishedInTime(Run(events), last.event, last.now, delay)
    ensures Justified(events + [last], Run(events + [last]), delay)
  {
    hide Run, Next, EntryJustified, FlightJustified, FinishedInTime;
    RunOfAppend(events, last);
    var s := Run(events);
    var s1 := Next(s, last.event, last.now);
    forall id | id in s1.cache ensures EntryJustified(events + [last], id, s1.cache[id], delay) {
      EntryStaysJustified(events, last, s, delay, id);
    }
    forall k | 0 <= k < |s1.flights| ensures FlightJustified(events + [last], s1.flights[k]) {
      FlightStaysJustified(events, last, s, delay, k);
    }
  }

  lemma {:induction false} EveryRunIsJustified(events: seq<Timed>, delay: nat)
    requires FinishesWithin(events, delay)
    ensures Justified(events, Run(events), delay)
  {
    if events != [] {
      var n := |events| - 1;
      var before := events[..n];
      assert events == before + [events[n]];
      forall i | 0 <= i < n ensures FinishedInTime(Run(before[..i]), before[i].event, before[i].now, delay) {
        assert before[..i] == events[..i];
      }
      EveryRunIsJustified(before, delay);
      StepStaysJustified(before, events[n], delay);
    }
  }

  /**
   * Even if every invalidation is lost, whoever is let in held an unrevoked, unsuspended session at
   * some moment of the last five minutes, plus what a validation may take.
   */
  lemma StalenessIsBounded(events: seq<Timed>, e: Event, now: int, token: Token, delay: nat) returns (i: nat)
    requires FinishesWithin(events, delay) && FinishedInTime(Run(events), e, now, delay)
    requires LetsIn(Run(events), e, now, token)
    ensures i < |events| && events[i].now >= now - 300_000 - delay
    ensures var db := Run(events[..i]).db;
      && token.session in db.sessions && !db.sessions[token.session].revoked
      && db.sessions[token.session].expiresAt > events[i].now
      && db.sessions[token.session].user == token.user
      && (token.user !in db.statuses || db.statuses[token.user] == Active)
    ensures e.ValidateCached? ==> (
      var entry := Run(events).cache[token.session];
      now < entry.until && now < entry.expiresAt == Run(events[..i]).db.sessions[token.session].expiresAt)
  {
    hide Run;
    EveryRunIsJustified(events, delay);
    var s := Run(events);
    if e.ValidateCached? {
      var entry := s.cache[token.session];
      assert EntryJustified(events, token.session, entry, delay);
      i :| HeldAt(events, i, entry.until - MAX_CACHE_TTL_MS - delay, token.session, entry.user, entry.expiresAt);
    } else {
      var f := s.flights[e.flight];
      assert FlightJustified(events, f);
      i :| HeldAt(events, i, f.startedAt, token.session, f.session.user, f.session.expiresAt);
    }
  }

  // ---------------------------------------------------------------------------------------------
  // When a revocation takes effect
  // ---------------------------------------------------------------------------------------------

  predicate HasOpenFlight(s: State, id: Id) {
    exists k :: 0 <= k < |s.flights| && s.flights[k].open && s.flights[k].token.session == id
  }

  /** The entry lets a bearer of its user in: it is in time, and so is the session it repeats. */
  predicate Admits(e: Entry, now: int) {
    now < e.until && now < e.expiresAt && e.status == Active
  }

  /** Some bearer of the session can be let in without a look at its row. */
  predicate Exposed(s: State, id: Id, now: int) {
    HasOpenFlight(s, id) || (id in s.cache && Admits(s.cache[id], now))
  }

  ghost predicate CanLetIn(s: State, id: Id, now: int) {
    exists e, token: Token :: token.session == id && LetsIn(s, e, now, token)
  }

  lemma ExposureIsWhatLetsIn(s: State, id: Id, now: int)
    ensures CanLetIn(s, id, now) <==> Exposed(s, id, now)
  {
    if HasOpenFlight(s, id) {
      var k :| 0 <= k < |s.flights| && s.flights[k].open && s.flights[k].token.session == id;
      assert LetsIn(s, FinishValidation(k, true), now, s.flights[k].token);
    } else if id in s.cache && Admits(s.cache[id], now) {
      var token := Token(s.cache[id].user, id, None);
      assert LetsIn(s, ValidateCached(token), now, token);
    }
  }

  /** An invalidation that arrives. */
  predicate Clears(s: State, e: Event, id: Id) {
    e.ClearEntry? && e.reachable && EntryIsDue(s, e.operation) && s.operations[e.operation].session == id
  }

  /** The k-th validation fills the cache for the session. */
  predicate Fills(s: State, e: Event, k: nat, id: Id) {
    && e == FinishValidation(k, true) && IsOpen(s, k) && s.flights[k].token.session == id
    && TtlSeconds(s.flights[k].token, s.flights[k].startedAt) > 0
  }

  /** What a validation writes that finishes now. */
  function FillEntry(f: Flight, now: int): Entry {
    Entry(f.session.user, f.session.expiresAt, f.status, now + TtlSeconds(f.token, f.startedAt) * 1000)
  }

  /** The session's entry is filled or cleared. */
  predicate Writes(s: State, e: Event, id: Id) {
    Clears(s, e, id) || (e.FinishValidation? && Fills(s, e, e.flight, id))
  }

  predicate RevokesRow(s: State, e: Event, id: Id) {
    e.UpdateRow? && RowIsDue(s, e.operation) && s.operations[e.operation].session == id
    && s.operations[e.operation].change.Revocation? && id in s.db.sessions
  }

  predicate WritesAt(events: seq<Timed>, i: int, id: Id) {
    0 <= i < |events| && Writes(Run(events[..i]), events[i].event, id)
  }

  predicate FillsAt(events: seq<Timed>, i: int, k: nat, id: Id) {
    0 <= i < |events| && Fills(Run(events[..i]), events[i].event, k, id)
  }

  predicate RevokesRowAt(events: seq<Timed>, i: int, id: Id) {
    0 <= i < |events| && RevokesRow(Run(events[..i]), events[i].event, id)
  }

  /** The k-th validation reads the table. */
  predicate ReadsAt(events: seq<Timed>, i: int, k: nat) {
    0 <= i < |events| && |Run(events[..i]).flights| == k && |Run(events[..i + 1]).flights| == k + 1
  }

  /** The fill that stands: no invalidation of the session, and no other fill, followed. */
  predicate StandingFill(events: seq<Timed>, i: int, k: nat, id: Id) {
    FillsAt(events, i, k, id) && forall j :: i < j < |events| ==> !WritesAt(events, j, id)
  }

  lemma IndicesSurvive(events: seq<Timed>, last: Timed, i: int, id: Id)
    requires 0 <= i < |events|
    ensures WritesAt(events + [last], i, id) <==> WritesAt(events, i, id)
    ensures forall k: nat :: FillsAt(events + [last], i, k, id) <==> FillsAt(events, i, k, id)
    ensures forall k: nat :: ReadsAt(events + [last], i, k) <==> ReadsAt(events, i, k)
  {
    assert (events + [last])[..i] == events[..i] && (events + [last])[..i + 1] == events[..i + 1];
  }

  lemma FillsAndClearsDecide(s: State, e: Event, now: int, id: Id)
    ensures Clears(s, e, id) ==> id !in Next(s, e, now).cache
    ensures e.FinishValidation? && Fills(s, e, e.flight, id) ==> (
      id in Next(s, e, now).cache && Next(s, e, now).cache[id] == FillEntry(s.flights[e.flight], now))
    ensures !Writes(s, e, id) ==> (
      (id in Next(s, e, now).cache <==> id in s.cache) && (id in s.cache ==> Next(s, e, now).cache[id] == s.cache[id]))
  {
  }

  ghost predicate HasStandingFill(events: seq<Timed>, id: Id) {
    exists i, k: nat :: StandingFill(events, i, k, id)
  }

  /** Validations are never forgotten and change in nothing but that they end. */
  lemma FlightsOnlyGrow(s: State, e: Event, now: int)
    ensures |s.flights| <= |Next(s, e, now).flights| <= |s.flights| + 1
    ensures forall k :: 0 <= k < |s.flights| ==> (
      Next(s, e, now).flights[k] == s.flights[k].(open := Next(s, e, now).flights[k].open))
    ensures |Next(s, e, now).flights| > |s.flights| ==> (
      var f := Next(s, e, now).flights[|s.flights|];
      e.ReadSession? && f.token == e.token && f.status == Active && Unrevoked(s.db, e.token.session)
      && s.db.sessions[e.token.session].expiresAt > now)
  {
  }

  /** The entry is there, and it is what the k-th validation wrote at the i-th event. */
  predicate IsFilledBy(events: seq<Timed>, i: int, k: nat, id: Id) {
    var s := Run(events);
    && 0 <= i < |events| && k < |s.flights| && s.flights[k].token.session == id
    && id in s.cache && s.cache[id] == FillEntry(s.flights[k], events[i].now)
  }

  ghost predicate CacheFollowsFills(events: seq<Timed>, id: Id) {
    && (id in Run(events).cache <==> HasStandingFill(events, id))
    && forall i, k: nat :: StandingFill(events, i, k, id) ==> IsFilledBy(events, i, k, id)
  }

  /**
   * The cache holds a session exactly when a validation filled it and no invalidation followed, and
   * what it holds is what the last such validation wrote.
   */
  lemma {:induction false} CachedExactly(events: seq<Timed>, id: Id)
    ensures CacheFollowsFills(events, id)
  {
    if events != [] {
      var n := |events| - 1;
      var before, last := events[..n], events[n];
      assert events == before + [last];
      CachedExactly(before, id);
      if Writes(Run(before), last.event, id) {
        CachedAfterAWrite(before, last, id);
      } else {
        CachedAfterOthers(before, last, id);
      }
    }
  }

  lemma CachedAfterAWrite(events: seq<Timed>, last: Timed, id: Id)
    requires Writes(Run(events), last.event, id)
    ensures CacheFollowsFills(events + [last], id)
  {
    hide Run, Next, FillEntry;
    var all, n, s := events + [last], |events|, Run(events);
    RunOfAppend(events, last);
    assert all[..n] == events && WritesAt(all, n, id);
    FillsAndClearsDecide(s, last.event, last.now, id);
    FlightsOnlyGrow(s, last.event, last.now);
    forall i, k: nat | StandingFill(all, i, k, id) ensures IsFilledBy(all, i, k, id) {
      assert i == n;
      FillEntryIgnoresOpen(s.flights[k], Run(all).flights[k].open, last.now);
    }
    if !Clears(s, last.event, id) {
      assert StandingFill(all, n, last.event.flight, id);
    }
  }

  lemma FillEntryIgnoresOpen(f: Flight, open: bool, now: int)
    ensures FillEntry(f.(open := open), now) == FillEntry(f, now)
  {
  }

  lemma CachedAfterOthers(events: seq<Timed>, last: Timed, id: Id)
    requires CacheFollowsFills(events, id) && !Writes(Run(events), last.event, id)
    ensures CacheFollowsFills(events + [last], id)
  {
    hide Run, Next, FillEntry, Clears;
    var all, n, s := events + [last], |events|, Run(events);
    RunOfAppend(events, last);
    assert all[..n] == events;
    FillsAndClearsDecide(s, last.event, last.now, id);
    FlightsOnlyGrow(s, last.event, last.now);
    forall i, k: nat ensures StandingFill(all, i, k, id) <==> StandingFill(events, i, k, id) {
      StandingFillsSurvive(events, last, i, k, id);
    }
    forall i, k: nat | StandingFill(all, i, k, id) ensures IsFilledBy(all, i, k, id) {
      assert StandingFill(events, i, k, id) && IsFilledBy(events, i, k, id);
      FillEntryIgnoresOpen(s.flights[k], Run(all).flights[k].open, events[i].now);
    }
    if HasStandingFill(events, id) {
      var i, k: nat :| StandingFill(events, i, k, id);
      assert StandingFill(all, i, k, id);
    }
  }

  lemma StandingFillsSurvive(events: seq<Timed>, last: Timed, i: int, k: nat, id: Id)
    requires !Writes(Run(events), last.event, id)
    ensures StandingFill(events + [last], i, k, id) <==> StandingFill(events, i, k, id)
  {
    var all, n := events + [last], |events|;
    assert all[..n] == events;
    assert !WritesAt(all, n, id) && !FillsAt(all, n, k, id);
    hide Run, Writes, Fills;
    forall j | 0 <= j < n
      ensures WritesAt(all, j, id) <==> WritesAt(events, j, id)
      ensures FillsAt(all, j, k, id) <==> FillsAt(events, j, k, id)
    {
      IndicesSurvive(events, last, j, id);
    }
  }

  /** Every validation read the table at some event, when the session was not revoked. */
  lemma {:induction false} EveryFlightRead(events: seq<Timed>, k: nat) returns (r: nat)
    requires k < |Run(events).flights|
    ensures ReadsAt(events, r, k) && Unrevoked(Run(events[..r]).db, Run(events).flights[k].token.session)
    ensures Run(events[..r]).db.sessions[Run(events).flights[k].token.session].expiresAt > events[r].now
    ensures Run(events).flights[k].status == Active
  {
    hide Next;
    var n := |events| - 1;
    var before := events[..n];
    assert events == before + [events[n]] && events[..n + 1] == events;
    FlightsOnlyGrow(Run(before), events[n].event, events[n].now);
    if k < |Run(before).flights| {
      r := EveryFlightRead(before, k);
      IndicesSurvive(before, events[n], r, []);
      assert before[..r] == events[..r];
    } else {
      r := n;
    }
  }

  lemma StepKeepsRevoked(s: State, e: Event, now: int, id: Id)
    requires id in s.db.sessions && !Unrevoked(s.db, id)
    ensures id in Next(s, e, now).db.sessions && !Unrevoked(Next(s, e, now).db, id)
  {
  }

  lemma {:induction false} RevocationsLast(events: seq<Timed>, i: nat, id: Id)
    requires i <= |events| && id in Run(events[..i]).db.sessions && !Unrevoked(Run(events[..i]).db, id)
    ensures id in Run(events).db.sessions && !Unrevoked(Run(events).db, id)
  {
    hide Next, Unrevoked;
    if i == |events| {
      assert events[..i] == events;
    } else {
      var n := |events| - 1;
      assert events[..n][..i] == events[..i];
      RevocationsLast(events[..n], i, id);
      StepKeepsRevoked(Run(events[..n]), events[n].event, events[n].now, id);
    }
  }

  /** The k-th validation filled the entry that stands, and it is still in time. */
  predicate StillAdmits(events: seq<Timed>, i: int, k: nat, id: Id, now: int) {
    && StandingFill(events, i, k, id) && k < |Run(events).flights|
    && var f := Run(events).flights[k];
      now < events[i].now + TtlSeconds(f.token, f.startedAt) * 1000 && now < f.session.expiresAt
  }

  /**
   * The k-th validation overtakes the revocation whose row update is the u-th event: it read the
   * table before that update, and is still under way or filled the entry that stands and is in time.
   */
  ghost predicate Overtakes(events: seq<Timed>, u: int, k: nat, id: Id, now: int) {
    && k < |Run(events).flights| && Run(events).flights[k].token.session == id
    && (exists r :: r < u && ReadsAt(events, r, k))
    && (Run(events).flights[k].open || exists i :: StillAdmits(events, i, k, id, now))
  }

  ghost predicate IsOvertaken(events: seq<Timed>, u: int, id: Id, now: int) {
    exists k: nat :: Overtakes(events, u, k, id, now)
  }

  lemma UpdateReadsNothing(events: seq<Timed>, u: int, k: nat, id: Id)
    requires RevokesRowAt(events, u, id)
    ensures !ReadsAt(events, u, k)
    ensures id in Run(events[..u + 1]).db.sessions && !Unrevoked(Run(events[..u + 1]).db, id)
  {
    assert events[..u + 1] == events[..u] + [events[u]];
    RunOfAppend(events[..u], events[u]);
    FlightsOnlyGrow(Run(events[..u]), events[u].event, events[u].now);
    hide Run;
  }

  lemma FlightsReadBeforeTheUpdate(events: seq<Timed>, u: int, k: nat, id: Id) returns (r: nat)
    requires RevokesRowAt(events, u, id)
    requires k < |Run(events).flights| && Run(events).flights[k].token.session == id
    ensures r < u && ReadsAt(events, r, k) && Run(events).flights[k].status == Active
  {
    hide Run, Next, RevokesRow;
    r := EveryFlightRead(events, k);
    UpdateReadsNothing(events, u, k, id);
    if r > u {
      assert events[..r][..u + 1] == events[..u + 1];
      RevocationsLast(events[..r], u + 1, id);
    }
  }

  /**
   * After its row update, in whatever order the two halves came and whatever came between, some
   * bearer of a revoked session can be let in exactly when a validation overtook the revocation.
   */
  lemma RevocationIsEffectiveExactly(events: seq<Timed>, u: int, id: Id, now: int)
    requires RevokesRowAt(events, u, id)
    ensures (exists e, token: Token :: token.session == id && LetsIn(Run(events), e, now, token))
       <==> IsOvertaken(events, u, id, now)
  {
    hide Run, Next, ReadsAt, FillsAt, WritesAt, RevokesRow, LetsIn;
    var s := Run(events);
    ExposureIsWhatLetsIn(s, id, now);
    assert CanLetIn(s, id, now) <==> exists e, token: Token :: token.session == id && LetsIn(s, e, now, token);
    CachedExactly(events, id);
    if id in s.cache && Admits(s.cache[id], now) {
      var i, k: nat :| StandingFill(events, i, k, id);
      assert IsFilledBy(events, i, k, id);
      assert StillAdmits(events, i, k, id, now);
      var r := FlightsReadBeforeTheUpdate(events, u, k, id);
      assert Overtakes(events, u, k, id, now);
    }
    if HasOpenFlight(s, id) {
      var k :| 0 <= k < |s.flights| && s.flights[k].open && s.flights[k].token.session == id;
      var r := FlightsReadBeforeTheUpdate(events, u, k, id);
      assert Overtakes(events, u, k, id, now);
    }
    if IsOvertaken(events, u, id, now) {
      var k: nat :| Overtakes(events, u, k, id, now);
      if !s.flights[k].open {
        var i :| StillAdmits(events, i, k, id, now);
        assert IsFilledBy(events, i, k, id);
        var r := FlightsReadBeforeTheUpdate(events, u, k, id);
      }
    }
  }

  /** Nobody is let in at `since` or later. */
  predicate Closed(s: State, id: Id, since: int) {
    !HasOpenFlight(s, id) && (id in s.cache ==> !Admits(s.cache[id], since))
  }

  lemma ClosedStaysClosed(s: State, e: Event, now: int, id: Id, since: int)
    requires id in s.db.sessions && !Unrevoked(s.db, id) && Closed(s, id, since)
    ensures Closed(Next(s, e, now), id, since)
    ensures id in Next(s, e, now).db.sessions && !Unrevoked(Next(s, e, now).db, id)
  {
    var s1 := Next(s, e, now);
    forall k | 0 <= k < |s1.flights| && s1.flights[k].open ensures s1.flights[k].token.session != id {
      assert k < |s.flights| ==> s.flights[k].open && s.flights[k].token == s1.flights[k].token;
    }
    FillsAndClearsDecide(s, e, now, id);
  }

  /**
   * If no validation overtook the revocation, nobody is let in from then on, whatever happens later
   * and whatever clocks read.
   */
  lemma {:induction false} CleanRevocationTakesEffectAtOnce(
      events: seq<Timed>, u: int, id: Id, since: int, later: seq<Timed>, e: Event, now: int, token: Token)
    requires RevokesRowAt(events, u, id) && !IsOvertaken(events, u, id, since)
    requires token.session == id && since <= now
    ensures !LetsIn(Run(events + later), e, now, token)
    ensures var s := Run(events + later); id in s.db.sessions && !Unrevoked(s.db, id) && Closed(s, id, since)
    decreases |later|
  {
    hide Next, LetsIn, HasOpenFlight, Admits;
    var s := Run(events + later);
    if later == [] {
      assert events + later == events;
      RevocationIsEffectiveExactly(events, u, id, since);
      ExposureIsWhatLetsIn(s, id, since);
      RowIsRevoked(events, u, id);
    } else {
      var n := |later| - 1;
      CleanRevocationTakesEffectAtOnce(events, u, id, since, later[..n], later[n].event, now, token);
      assert (events + later)[..|events + later| - 1] == events + later[..n];
      ClosedStaysClosed(Run(events + later[..n]), later[n].event, later[n].now, id, since);
    }
    ExposureIsWhatLetsIn(s, id, now);
    AdmitsNoLonger(s, id, since, now);
  }

  lemma AdmitsNoLonger(s: State, id: Id, since: int, now: int)
    requires Closed(s, id, since) && since <= now
    ensures !Exposed(s, id, now)
  {
  }

  lemma RowIsRevoked(events: seq<Timed>, u: int, id: Id)
    requires RevokesRowAt(events, u, id)
    ensures id in Run(events).db.sessions && !Unrevoked(Run(events).db, id)
  {
    UpdateReadsNothing(events, u, 0, id);
    RevocationsLast(events, u + 1, id);
  }

  // ---------------------------------------------------------------------------------------------
  // The two halves, step by step
  // ---------------------------------------------------------------------------------------------

  /** If the invalidation came first, the row update is clean exactly when nothing speaks for the session. */
  lemma RowUpdateIsCleanExactly(s: State, k: nat, now: int, later: int)
    requires RowIsDue(s, k) && s.operations[k].change.Revocation? && s.operations[k].session in s.db.sessions
    ensures var id := s.operations[k].session; var after := Next(s, UpdateRow(k), now);
      !Unrevoked(after.db, id)
      && (Exposed(after, id, later) <==> (id in s.cache && Admits(s.cache[id], later)) || HasOpenFlight(s, id))
  {
  }

  /** If the row was updated first, the invalidation is clean exactly when it arrives or finds nothing, and no validation is under way. */
  lemma InvalidationIsCleanExactly(s: State, k: nat, reachable: bool, now: int, later: int)
    requires EntryIsDue(s, k)
    ensures var id := s.operations[k].session;
      Exposed(Next(s, ClearEntry(k, reachable), now), id, later)
      <==> (!reachable && id in s.cache && Admits(s.cache[id], later)) || HasOpenFlight(s, id)
  {
  }

  // ---------------------------------------------------------------------------------------------
  // Three ways to be overtaken
  // ---------------------------------------------------------------------------------------------

  const HOLDER := Token("u", "s", None)
  const CREATE := Timed(Create("s", "u", 1_000_000), 0)
  const REVOKE := Timed(Start("s", Revocation), 0)
  const UPDATE := Timed(UpdateRow(0), 0)
  const READ := Timed(ReadSession(HOLDER, true), 0)
  const FINISH := Timed(FinishValidation(0, true), 0)

  function Clearing(reachable: bool): Timed {
    Timed(ClearEntry(0, reachable), 0)
  }

  /** The revocation has returned, its row is revoked, and its holder is let in. */
  predicate Outlived(s: State) {
    && |s.operations| == 1 && s.operations[0] == Operation("s", Revocation, true, true)
    && !Unrevoked(s.db, "s") && LetsIn(s, ValidateCached(HOLDER), 0, HOLDER)
  }

  function Created(revoked: bool): Tables {
    Tables(map["s" := Session("u", revoked, 1_000_000)], map[])
  }

  function Holder(open: bool): Flight {
    Flight(HOLDER, Session("u", false, 1_000_000), Active, 0, open)
  }

  function Revoking(rowDone: bool, entryDone: bool): seq<Operation> {
    [Operation("s", Revocation, rowDone, entryDone)]
  }

  const FILLED: Cache := map["s" := Entry("u", 1_000_000, Active, 300_000)]

  lemma CreatedRun()
    ensures Run([] + [CREATE]) == State(Created(false), map[], [], [])
  {
    RunOfAppend([], CREATE);
  }

  /** The invalidation is lost. */
  lemma LostInvalidationIsOutlived()
    ensures Outlived(Run([] + [CREATE] + [READ] + [FINISH] + [REVOKE] + [UPDATE] + [Clearing(false)]))
  {
    var s := [] + [CREATE];
    CreatedRun();
    hide Run;
    RunOfAppend(s, READ);
    assert Run(s + [READ]) == State(Created(false), map[], [Holder(true)], []);
    RunOfAppend(s + [READ], FINISH);
    assert Run(s + [READ] + [FINISH]) == State(Created(false), FILLED, [Holder(false)], []);
    RunOfAppend(s + [READ] + [FINISH], REVOKE);
    assert Run(s + [READ] + [FINISH] + [REVOKE]) == State(Created(false), FILLED, [Holder(false)], Revoking(false, false));
    RunOfAppend(s + [READ] + [FINISH] + [REVOKE], UPDATE);
    assert Run(s + [READ] + [FINISH] + [REVOKE] + [UPDATE]) == State(Created(true), FILLED, [Holder(false)], Revoking(true, false));
    RunOfAppend(s + [READ] + [FINISH] + [REVOKE] + [UPDATE], Clearing(false));
  }

  /** A validation under way over both halves refills the cache, although the invalidation arrived. */
  lemma ValidationUnderWayRefillsTheCache()
    ensures Outlived(Run([] + [CREATE] + [READ] + [REVOKE] + [UPDATE] + [Clearing(true)] + [FINISH]))
  {
    var s := [] + [CREATE];
    CreatedRun();
    hide Run;
    RunOfAppend(s, READ);
    assert Run(s + [READ]) == State(Created(false), map[], [Holder(true)], []);
    RunOfAppend(s + [READ], REVOKE);
    assert Run(s + [READ] + [REVOKE]) == State(Created(false), map[], [Holder(true)], Revoking(false, false));
    RunOfAppend(s + [READ] + [REVOKE], UPDATE);
    assert Run(s + [READ] + [REVOKE] + [UPDATE]) == State(Created(true), map[], [Holder(true)], Revoking(true, false));
    RunOfAppend(s + [READ] + [REVOKE] + [UPDATE], Clearing(true));
    assert Run(s + [READ] + [REVOKE] + [UPDATE] + [Clearing(true)])
        == State(Created(true), map[], [Holder(true)], Revoking(true, true));
    RunOfAppend(s + [READ] + [REVOKE] + [UPDATE] + [Clearing(true)], FINISH);
  }

  /**
   * The invalidation arrives before the row update and a whole validation comes between them: none
   * is under way at either half, and still the holder is let in.
   */
  lemma ValidationBetweenTheHalvesIsOutlived()
    ensures Outlived(Run([] + [CREATE] + [REVOKE] + [Clearing(true)] + [READ] + [FINISH] + [UPDATE]))
    ensures !HasOpenFlight(Run([] + [CREATE] + [REVOKE]), "s")
    ensures !HasOpenFlight(Run([] + [CREATE] + [REVOKE] + [Clearing(true)] + [READ] + [FINISH]), "s")
  {
    var s := [] + [CREATE];
    CreatedRun();
    hide Run;
    RunOfAppend(s, REVOKE);
    assert Run(s + [REVOKE]) == State(Created(false), map[], [], Revoking(false, false));
    RunOfAppend(s + [REVOKE], Clearing(true));
    assert Run(s + [REVOKE] + [Clearing(true)]) == State(Created(false), map[], [], Revoking(false, true));
    RunOfAppend(s + [REVOKE] + [Clearing(true)], READ);
    assert Run(s + [REVOKE] + [Clearing(true)] + [READ]) == State(Created(false), map[], [Holder(true)], Revoking(false, true));
    RunOfAppend(s + [REVOKE] + [Clearing(true)] + [READ], FINISH);
    assert Run(s + [REVOKE] + [Clearing(true)] + [READ] + [FINISH])
        == State(Created(false), FILLED, [Holder(false)], Revoking(false, true));
    RunOfAppend(s + [REVOKE] + [Clearing(true)] + [READ] + [FINISH], UPDATE);
  }

  /**
   * An entry outlives the token it was made for by less than a second, plus what its validation may
   * take, because the time to live is computed before the write is awaited.
   */
  lemma EntryEndsWithItsToken(events: seq<Timed>, id: Id, delay: nat) returns (k: nat)
    requires FinishesWithin(events, delay) && id in Run(events).cache
    ensures k < |Run(events).flights| && Run(events).flights[k].token.session == id
    ensures var f, e := Run(events).flights[k], Run(events).cache[id];
      && (f.token.exp.Some? ==> e.until < f.token.exp.value * 1000 + 1000 + delay)
      && e.until <= f.startedAt + 300_000 + delay
  {
    CachedExactly(events, id);
    var i, k' :| StandingFill(events, i, k', id);
    k := k';
    assert IsFilledBy(events, i, k, id);
    FlightsOfPrefix(events, i, k);
    var startedAt := Run(events).flights[k].startedAt;
    assert FinishedInTime(Run(events[..i]), events[i].event, events[i].now, delay);
    assert startedAt / 1000 * 1000 <= startedAt < startedAt / 1000 * 1000 + 1000;
  }

  lemma {:induction false} FlightsOfPrefix(events: seq<Timed>, i: nat, k: nat)
    requires i <= |events| && k < |Run(events[..i]).flights|
    ensures k < |Run(events).flights| && Run(events).flights[k].startedAt == Run(events[..i]).flights[k].startedAt
  {
    hide Next;
    if i == |events| {
      assert events[..i] == events;
    } else {
      var before := events[..|events| - 1];
      assert before[..i] == events[..i];
      FlightsOfPrefix(before, i, k);
      FlightsOnlyGrow(Run(before), events[|events| - 1].event, events[|events| - 1].now);
    }
  }
}

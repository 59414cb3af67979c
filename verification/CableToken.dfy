/** Single-use cable tokens: issue, cleanup and concurrent consumption. */
module CableToken {
  import opened Options

  type Time = int
  type UserId = nat
  type Nonce = nat
  type Client = nat

  /** Seconds a token lives. */
  const EXPIRES_IN := 90

  datatype Record = Record(user: UserId, expiresAt: Time, usedAt: Option<Time>)

  /** A signed token; the verifier accepts exactly the tokens that were signed, until they expire. */
  datatype Token = Token(user: UserId, nonce: Nonce, expiresAt: Time)

  /** A request that presents a token: verified, holding the row lock, or past the checks with the time they were made. */
  datatype Phase =
    | Verified(user: UserId, nonce: Nonce)
    | Locked(user: UserId, nonce: Nonce)
    | Passed(user: UserId, nonce: Nonce, checkedAt: Time)

  datatype Success = Success(nonce: Nonce, user: UserId, checkedAt: Time, usedAt: Time)

  /** What was issued for a nonce, kept after its row is deleted. */
  datatype Grant = Grant(user: UserId, issuedAt: Time)

  datatype State = State(clock: Time, rows: map<Nonce, Record>, grants: map<Nonce, Grant>, tokens: set<Token>,
                         clients: map<Client, Phase>, successes: seq<Success>)

  datatype Event =
    | Tick(to: Time)
    | Sweep
    | Insert(nonce: Nonce, user: UserId)
    | Sign(nonce: Nonce)
    | Present(client: Client, token: Token)
    | Lock(client: Client)
    | Check(client: Client)
    | Commit(client: Client)
    | Abort(client: Client)

  predicate Owns(p: Phase, n: Nonce) {
    !p.Verified? && p.nonce == n
  }

  predicate IsLocked(clients: map<Client, Phase>, n: Nonce) {
    exists c | c in clients :: Owns(clients[c], n)
  }

  predicate ExpiredOrUsed(r: Record, now: Time) {
    r.usedAt.Some? || r.expiresAt <= now
  }

  /** The rows a deletion of the expired and the used leaves; a row that a request has locked stays. */
  function Swept(s: State): map<Nonce, Record> {
    map n | n in s.rows && (!ExpiredOrUsed(s.rows[n], s.clock) || IsLocked(s.clients, n)) :: s.rows[n]
  }

  /** One step; an event that cannot happen now changes nothing. */
  function Step(s: State, e: Event): State {
    match e
    case Tick(to) => if to >= s.clock then s.(clock := to) else s
    case Sweep => s.(rows := Swept(s))
    case Insert(n, u) =>
      if n in s.grants then s
      else s.(rows := s.rows[n := Record(u, s.clock + EXPIRES_IN, None)], grants := s.grants[n := Grant(u, s.clock)])
    case Sign(n) => if n in s.grants then s.(tokens := s.tokens + {Token(s.grants[n].user, n, s.clock + EXPIRES_IN)}) else s
    case Present(c, t) =>
      if c !in s.clients && t in s.tokens && s.clock < t.expiresAt then s.(clients := s.clients[c := Verified(t.user, t.nonce)]) else s
    case Lock(c) =>
      if c in s.clients && s.clients[c].Verified? then
        var p := s.clients[c];
        if p.nonce !in s.rows || s.rows[p.nonce].user != p.user then s.(clients := s.clients - {c})
        else if IsLocked(s.clients, p.nonce) then s
        else s.(clients := s.clients[c := Locked(p.user, p.nonce)])
      else s
    case Check(c) =>
      if c in s.clients && s.clients[c].Locked? then
        var p := s.clients[c];
        if p.nonce !in s.rows || ExpiredOrUsed(s.rows[p.nonce], s.clock) then s.(clients := s.clients - {c})
        else s.(clients := s.clients[c := Passed(p.user, p.nonce, s.clock)])
      else s
    case Commit(c) =>
      if c in s.clients && s.clients[c].Passed? && s.clients[c].nonce in s.rows then
        var p := s.clients[c];
        s.(rows := s.rows[p.nonce := s.rows[p.nonce].(usedAt := Some(s.clock))], clients := s.clients - {c},
           successes := s.successes + [Success(p.nonce, p.user, p.checkedAt, s.clock)])
      else s
    case Abort(c) => s.(clients := s.clients - {c})
  }

  function Run(s: State, events: seq<Event>): State
    decreases |events|
  {
    if events == [] then s else Run(Step(s, events[0]), events[1..])
  }

  function Initial(clock: Time): State {
    State(clock, map[], map[], {}, map[], [])
  }

  // ---------------------------------------------------------------- the invariant

  predicate Consumed(successes: seq<Success>, n: Nonce) {
    exists x | x in successes :: x.nonce == n
  }

  predicate GrantsSound(clock: Time, grants: map<Nonce, Grant>, tokens: set<Token>) {
    && (forall n | n in grants :: grants[n].issuedAt <= clock)
    && (forall t | t in tokens :: t.nonce in grants && t.user == grants[t.nonce].user)
  }

  /** A row is what was granted, and marked used exactly when its token succeeded. */
  predicate RowSound(r: Record, g: Grant, consumed: bool) {
    r.user == g.user && r.expiresAt == g.issuedAt + EXPIRES_IN && (r.usedAt.Some? <==> consumed)
  }

  predicate RowsSound(rows: map<Nonce, Record>, grants: map<Nonce, Grant>, successes: seq<Success>) {
    forall n | n in rows :: n in grants && RowSound(rows[n], grants[n], Consumed(successes, n))
  }

  /** Until it succeeds or expires, a granted nonce keeps its row. */
  predicate Kept(clock: Time, rows: map<Nonce, Record>, grants: map<Nonce, Grant>, successes: seq<Success>) {
    forall n | n in grants && clock < grants[n].issuedAt + EXPIRES_IN && n !in rows :: Consumed(successes, n)
  }

  /** What a request that holds a row has checked still holds. */
  predicate PhaseSound(clock: Time, rows: map<Nonce, Record>, p: Phase) {
    match p
    case Verified(_, _) => true
    case Locked(u, n) => n in rows && rows[n].user == u
    case Passed(u, n, at) => n in rows && rows[n].user == u && rows[n].usedAt.None? && at < rows[n].expiresAt && at <= clock
  }

  predicate ClientsSound(clock: Time, rows: map<Nonce, Record>, grants: map<Nonce, Grant>, clients: map<Client, Phase>) {
    forall c | c in clients :: clients[c].nonce in grants && PhaseSound(clock, rows, clients[c])
  }

  /** One request at a time holds a row. */
  predicate Exclusive(clients: map<Client, Phase>) {
    forall c, d | c in clients && d in clients && !clients[c].Verified? && Owns(clients[d], clients[c].nonce) :: c == d
  }

  predicate Genuine(clock: Time, grants: map<Nonce, Grant>, x: Success) {
    && x.nonce in grants && x.user == grants[x.nonce].user
    && x.checkedAt < grants[x.nonce].issuedAt + EXPIRES_IN && x.checkedAt <= x.usedAt <= clock
  }

  predicate SuccessesSound(clock: Time, grants: map<Nonce, Grant>, successes: seq<Success>) {
    && (forall i, j | 0 <= i < j < |successes| :: successes[i].nonce != successes[j].nonce)
    && (forall x | x in successes :: Genuine(clock, grants, x))
  }

  predicate Inv(s: State) {
    && GrantsSound(s.clock, s.grants, s.tokens)
    && RowsSound(s.rows, s.grants, s.successes)
    && Kept(s.clock, s.rows, s.grants, s.successes)
    && ClientsSound(s.clock, s.rows, s.grants, s.clients)
    && Exclusive(s.clients)
    && SuccessesSound(s.clock, s.grants, s.successes)
  }

  lemma TickKeeps(s: State, to: Time)
    requires Inv(s)
    ensures Inv(Step(s, Tick(to)))
  {
  }

  lemma InsertKeeps(s: State, n: Nonce, u: UserId)
    requires Inv(s)
    ensures Inv(Step(s, Insert(n, u)))
  {
  }

  lemma SweepKeeps(s: State)
    requires Inv(s)
    ensures Inv(Step(s, Sweep))
  {
  }

  lemma PresentKeeps(s: State, c: Client, t: Token)
    requires Inv(s)
    ensures Inv(Step(s, Present(c, t)))
  {
  }

  lemma LockKeeps(s: State, c: Client)
    requires Inv(s)
    ensures Inv(Step(s, Lock(c)))
  {
  }

  lemma CheckKeeps(s: State, c: Client)
    requires Inv(s)
    ensures Inv(Step(s, Check(c)))
  {
  }

  lemma CommitSuccess(s: State, x: Success)
    requires SuccessesSound(s.clock, s.grants, s.successes) && Genuine(s.clock, s.grants, x) && !Consumed(s.successes, x.nonce)
    ensures SuccessesSound(s.clock, s.grants, s.successes + [x])
    ensures forall n :: Consumed(s.successes + [x], n) <==> Consumed(s.successes, n) || n == x.nonce
  {
    var after := s.successes + [x];
    assert after[|s.successes|] == x;
    assert forall y | y in s.successes :: y in after;
  }

  lemma CommitKeeps(s: State, c: Client)
    requires Inv(s)
    ensures Inv(Step(s, Commit(c)))
  {
    if c in s.clients && s.clients[c].Passed? {
      var t, p := Step(s, Commit(c)), s.clients[c];
      assert PhaseSound(s.clock, s.rows, p);
      assert RowSound(s.rows[p.nonce], s.grants[p.nonce], Consumed(s.successes, p.nonce));
      CommitSuccess(s, Success(p.nonce, p.user, p.checkedAt, s.clock));
      assert RowsSound(t.rows, t.grants, t.successes);
      assert Kept(t.clock, t.rows, t.grants, t.successes);
      forall d | d in t.clients ensures PhaseSound(t.clock, t.rows, t.clients[d]) {
        assert PhaseSound(s.clock, s.rows, s.clients[d]);
        assert Owns(s.clients[d], p.nonce) ==> d == c;
      }
    }
  }

  lemma StepKeeps(s: State, e: Event)
    requires Inv(s)
    ensures Inv(Step(s, e))
  {
    match e
    case Tick(to) => TickKeeps(s, to);
    case Sweep => SweepKeeps(s);
    case Insert(n, u) => InsertKeeps(s, n, u);
    case Sign(_) =>
    case Present(c, t) => PresentKeeps(s, c, t);
    case Lock(c) => LockKeeps(s, c);
    case Check(c) => CheckKeeps(s, c);
    case Commit(c) => CommitKeeps(s, c);
    case Abort(_) =>
  }

  lemma {:induction false} RunKeeps(s: State, events: seq<Event>)
    requires Inv(s)
    ensures Inv(Run(s, events))
    decreases |events|
  {
    if events != [] {
      StepKeeps(s, events[0]);
      RunKeeps(Step(s, events[0]), events[1..]);
    }
  }

  /** In every run a token succeeds at most once, only if checked before its expiry, and only for the user it was issued to. */
  lemma SingleUse(clock: Time, events: seq<Event>)
    ensures var s := Run(Initial(clock), events);
            && (forall i, j | 0 <= i < j < |s.successes| :: s.successes[i].nonce != s.successes[j].nonce)
            && (forall x | x in s.successes ::
                  && x.nonce in s.grants && x.user == s.grants[x.nonce].user
                  && x.checkedAt < s.grants[x.nonce].issuedAt + 90 && x.checkedAt <= x.usedAt)
  {
    RunKeeps(Initial(clock), events);
  }

  // ---------------------------------------------------------------- spent nonces

  /** No row can still be consumed: deleted, used, or expired with no request past its checks. */
  predicate Spent(s: State, n: Nonce) {
    && n in s.grants
    && (n !in s.rows || ExpiredOrUsed(s.rows[n], s.clock))
    && forall c | c in s.clients && s.clients[c].Passed? :: s.clients[c].nonce != n
  }

  lemma SpentStep(s: State, e: Event, n: Nonce)
    requires Spent(s, n)
    ensures Spent(Step(s, e), n)
    ensures var t := Step(s, e); s.successes <= t.successes && forall k | |s.successes| <= k < |t.successes| :: t.successes[k].nonce != n
  {
  }

  /** A spent nonce never succeeds again, whatever is deleted later. */
  lemma {:induction false} SpentForever(s: State, events: seq<Event>, n: Nonce)
    requires Spent(s, n)
    ensures var t := Run(s, events);
            s.successes <= t.successes && forall k | |s.successes| <= k < |t.successes| :: t.successes[k].nonce != n
    decreases |events|
  {
    if events != [] {
      var next := Step(s, events[0]);
      SpentStep(s, events[0], n);
      SpentForever(next, events[1..], n);
      var t := Run(next, events[1..]);
      assert forall k | 0 <= k < |next.successes| :: t.successes[k] == next.successes[k];
    }
  }

  /** Cleanup only deletes spent nonces, so it neither re-enables a token nor takes one away. */
  lemma SweepTakesSpent(s: State, n: Nonce)
    requires Inv(s) && n in s.rows && n !in Step(s, Sweep).rows
    ensures Spent(s, n) && Spent(Step(s, Sweep), n)
  {
  }

  // ---------------------------------------------------------------- a request alone

  function Alone(c: Client, t: Token): seq<Event> {
    [Present(c, t), Lock(c), Check(c), Commit(c)]
  }

  /** The token is signed, unexpired, never used, and its row not yet expired. */
  predicate Usable(s: State, t: Token) {
    && t in s.tokens && s.clock < t.expiresAt
    && t.nonce in s.grants && s.clock < s.grants[t.nonce].issuedAt + EXPIRES_IN && !Consumed(s.successes, t.nonce)
  }

  lemma RunHead(s: State, e: Event, rest: seq<Event>)
    ensures Run(s, [e] + rest) == Run(Step(s, e), rest)
  {
  }

  lemma RunFour(s: State, a: Event, b: Event, c: Event, d: Event)
    ensures Run(s, [a, b, c, d]) == Step(Step(Step(Step(s, a), b), c), d)
  {
    RunHead(s, a, [b, c, d]);
    RunHead(Step(s, a), b, [c, d]);
    RunHead(Step(Step(s, a), b), c, [d]);
    RunHead(Step(Step(Step(s, a), b), c), d, []);
  }

  function Spend(s: State, t: Token): State
    requires t.nonce in s.rows
  {
    s.(rows := s.rows[t.nonce := s.rows[t.nonce].(usedAt := Some(s.clock))],
       successes := s.successes + [Success(t.nonce, t.user, s.clock, s.clock)])
  }

  /** A state with one more request in a given phase. */
  function With(s: State, c: Client, p: Phase): State {
    s.(clients := s.clients[c := p])
  }

  lemma LockStep(s: State, c: Client, u: UserId, n: Nonce)
    requires c !in s.clients && !IsLocked(s.clients, n) && n in s.rows && s.rows[n].user == u
    ensures Step(With(s, c, Verified(u, n)), Lock(c)) == With(s, c, Locked(u, n))
  {
  }

  lemma CheckStep(s: State, c: Client, u: UserId, n: Nonce)
    requires c !in s.clients && n in s.rows
    ensures Step(With(s, c, Locked(u, n)), Check(c)) == if ExpiredOrUsed(s.rows[n], s.clock) then s else With(s, c, Passed(u, n, s.clock))
  {
  }

  lemma CommitStep(s: State, c: Client, t: Token)
    requires c !in s.clients && t.nonce in s.rows
    ensures Step(With(s, c, Passed(t.user, t.nonce, s.clock)), Commit(c)) == Spend(s, t)
  {
  }

  /** Requests wait only for their own row: one is let in whenever no other holds that row, whatever other rows are held. */
  lemma LockGranted(s: State, c: Client)
    requires c in s.clients && s.clients[c].Verified? && s.clients[c].nonce in s.rows && s.rows[s.clients[c].nonce].user == s.clients[c].user
    ensures var p, t := s.clients[c], Step(s, Lock(c));
            if forall d | d in s.clients :: s.clients[d].Verified? || s.clients[d].nonce != p.nonce
            then t == s.(clients := s.clients[c := Locked(p.user, p.nonce)]) else t == s
  {
    var n := s.clients[c].nonce;
    assert IsLocked(s.clients, n) <==> exists d | d in s.clients :: !s.clients[d].Verified? && s.clients[d].nonce == n by {
      if d :| d in s.clients && !s.clients[d].Verified? && s.clients[d].nonce == n { assert Owns(s.clients[d], n); }
    }
  }

  /** For a signed token the row tells whether it is usable. */
  lemma UsableRow(s: State, t: Token)
    requires Inv(s) && t in s.tokens && s.clock < t.expiresAt
    ensures Usable(s, t) <==> t.nonce in s.rows && !ExpiredOrUsed(s.rows[t.nonce], s.clock)
    ensures t.nonce in s.rows ==> s.rows[t.nonce].user == t.user
  {
  }

  lemma AloneSpends(s: State, c: Client, t: Token)
    requires Inv(s) && c !in s.clients && !IsLocked(s.clients, t.nonce) && Usable(s, t)
    ensures t.nonce in s.rows && Run(s, Alone(c, t)) == Spend(s, t)
  {
    UsableRow(s, t);
    RunFour(s, Present(c, t), Lock(c), Check(c), Commit(c));
    LockStep(s, c, t.user, t.nonce);
    CheckStep(s, c, t.user, t.nonce);
    CommitStep(s, c, t);
  }

  lemma AloneFails(s: State, c: Client, t: Token)
    requires Inv(s) && c !in s.clients && !IsLocked(s.clients, t.nonce) && !Usable(s, t)
    ensures Run(s, Alone(c, t)) == s
  {
    RunFour(s, Present(c, t), Lock(c), Check(c), Commit(c));
    if t in s.tokens && s.clock < t.expiresAt {
      UsableRow(s, t);
      if t.nonce in s.rows {
        LockStep(s, c, t.user, t.nonce);
        CheckStep(s, c, t.user, t.nonce);
      } else {
        assert s.clients[c := Verified(t.user, t.nonce)] - {c} == s.clients;
      }
    }
  }

  /** A request alone succeeds exactly with a usable token; a live token is never lost to cleanup. */
  lemma AloneSucceedsIff(s: State, c: Client, t: Token)
    requires Inv(s) && c !in s.clients && !IsLocked(s.clients, t.nonce)
    ensures Usable(s, t) <==> |Run(s, Alone(c, t)).successes| > |s.successes|
    ensures Usable(s, t) ==> !Usable(Run(s, Alone(c, t)), t)
  {
    if Usable(s, t) {
      AloneSpends(s, c, t);
      var x := Success(t.nonce, t.user, s.clock, s.clock);
      assert x in s.successes + [x];
    } else {
      AloneFails(s, c, t);
    }
  }

  /** What an uninterrupted issue leaves: a swept table with one more row, and a token that is usable at once. */
  lemma IssuedIsUsable(s: State, n: Nonce, u: UserId)
    requires Inv(s) && n !in s.grants
    ensures var t := Run(s, [Sweep, Insert(n, u), Sign(n)]);
            var token := Token(u, n, s.clock + EXPIRES_IN);
            && t == s.(rows := Swept(s)[n := Record(u, s.clock + EXPIRES_IN, None)], grants := s.grants[n := Grant(u, s.clock)],
                       tokens := s.tokens + {token})
            && Usable(t, token)
  {
    RunHead(s, Sweep, [Insert(n, u), Sign(n)]);
    RunHead(Step(s, Sweep), Insert(n, u), [Sign(n)]);
    RunHead(Step(Step(s, Sweep), Insert(n, u)), Sign(n), []);
  }

  // ---------------------------------------------------------------- the service

  /** The service when requests do not overlap. */
  class Service {
    var clock: Time
    var rows: map<Nonce, Record>
    var grants: map<Nonce, Grant>
    var tokens: set<Token>
    var successes: seq<Success>

    constructor (clock: Time)
      ensures Now() == Initial(clock) && Inv(Now())
    {
      this.clock, rows, grants, tokens, successes := clock, map[], map[], {}, [];
    }

    function Now(): State
      reads this
    {
      State(clock, rows, grants, tokens, map[], successes)
    }

    /** Cleanup, the new row, and the signed token, which is usable at once. */
    method IssueFor(user: UserId, nonce: Nonce) returns (token: Token)
      requires Inv(Now()) && nonce !in grants
      modifies this
      ensures Now() == Run(old(Now()), [Sweep, Insert(nonce, user), Sign(nonce)]) && Inv(Now())
      ensures token.user == user && token.nonce == nonce && Usable(Now(), token)
    {
      RunKeeps(Now(), [Sweep, Insert(nonce, user), Sign(nonce)]);
      IssuedIsUsable(Now(), nonce, user);
      rows := Swept(Now());
      rows, grants := rows[nonce := Record(user, clock + EXPIRES_IN, None)], grants[nonce := Grant(user, clock)];
      token := Token(user, nonce, clock + EXPIRES_IN);
      tokens := tokens + {token};
    }

    /** The user of a usable token, which is spent by this; nothing otherwise. */
    method Consume(token: Token) returns (user: Option<UserId>)
      requires Inv(Now())
      modifies this
      ensures Now() == Run(old(Now()), Alone(0, token)) && Inv(Now())
      ensures user == if Usable(old(Now()), token) then Some(token.user) else None
      ensures !Usable(Now(), token)
    {
      ghost var before := Now();
      RunKeeps(before, Alone(0, token));
      assert !IsLocked(before.clients, token.nonce);
      if Usable(before, token) { AloneSpends(before, 0, token); } else { AloneFails(before, 0, token); }
      if token !in tokens || clock >= token.expiresAt { return None; }
      if token.nonce !in rows || rows[token.nonce].user != token.user { return None; }
      var record := rows[token.nonce];
      if record.usedAt.Some? || record.expiresAt <= clock { return None; }
      rows := rows[token.nonce := record.(usedAt := Some(clock))];
      successes := successes + [Success(token.nonce, token.user, clock, clock)];
      assert Success(token.nonce, token.user, clock, clock) in successes;
      return Some(token.user);
    }
  }
}

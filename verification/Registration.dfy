/**
 * Board registration (backend/python/services/auth_service.py) under the transaction rule of
 * backend/python/core/database.py: a request that raises leaves the database as it was.
 * Times are milliseconds; `otpHash` stands for the hash of a one-time password.
 */
module Registration {
  import opened Text

  type BoardId = string
  type OtpHash = string -> string

  const OTP_LIFETIME_MS := 600_000
  const TOKEN_LIFETIME_MS := 900_000
  const OTP_MAX_ATTEMPTS := 10
  const OTP_LOCKOUT_MS := 900_000

  datatype AuthStatus = PENDING | ACTIVE | SUSPENDED

  datatype User = User(
    email: string, boardId: Option<BoardId>, status: AuthStatus, isBoard: bool, firebaseUid: Option<string>)

  datatype Pending = Pending(otpHash: string, expiresAt: int, attempts: int, lockedUntil: Option<int>)

  datatype Database = Database(users: seq<User>, pending: map<BoardId, Pending>)

  /** A verification token; `expiresAt` is a whole second (section 4.1.4 of RFC 7519). */
  datatype Token = Token(subject: BoardId, expiresAt: int)

  /** What a request hands back, or Raised for every HTTPException or other error. */
  datatype Response = Raised | AlreadyRegistered | OtpRequired | Issued(token: Token) | Completed | Deregistered

  function TokenFor(id: BoardId, now: int): Token {
    Token(id, (now + TOKEN_LIFETIME_MS) / 1000 * 1000)
  }

  // ---- Queries ----

  function ByEmail(users: seq<User>, email: string): (k: nat)
    ensures k <= |users|
    ensures k < |users| ==> users[k].email == email
    ensures forall i :: 0 <= i < k ==> users[i].email != email
  {
    if users == [] || users[0].email == email then 0 else 1 + ByEmail(users[1..], email)
  }

  function ByBoard(users: seq<User>, id: BoardId): (k: nat)
    ensures k <= |users|
    ensures k < |users| ==> users[k].boardId == Some(id)
    ensures forall i :: 0 <= i < k ==> users[i].boardId != Some(id)
  {
    if users == [] || users[0].boardId == Some(id) then 0 else 1 + ByBoard(users[1..], id)
  }

  function Lookup(db: Database, id: BoardId): Option<Pending> {
    if id in db.pending then Some(db.pending[id]) else None
  }

  predicate Locked(p: Pending, now: int) {
    (p.lockedUntil.Some? && p.lockedUntil.value > now) || p.attempts >= OTP_MAX_ATTEMPTS
  }

  // ---- The requests, as what they return and what they commit ----

  function InitiateResponse(db: Database, now: int, id: BoardId, email: string): Response {
    var k := ByEmail(db.users, email);
    if k < |db.users| && db.users[k].status == ACTIVE then AlreadyRegistered
    else if k < |db.users| && db.users[k].status == SUSPENDED then Raised
    else if k == |db.users| && ByBoard(db.users, id) < |db.users| then Raised
    else if Lookup(db, id).Some? && Locked(Lookup(db, id).value, now) then Raised
    else OtpRequired
  }

  function Initiated(db: Database, now: int, id: BoardId, uid: string, email: string, hashed: string): Database {
    Database(
      if ByEmail(db.users, email) < |db.users| then db.users
      else db.users + [User(email, Some(id), PENDING, true, Some(uid))],
      db.pending[id := Pending(hashed, now + OTP_LIFETIME_MS, 0, None)])
  }

  function VerifyResponse(db: Database, now: int, id: BoardId, hashed: string): Response {
    match Lookup(db, id)
    case None => Raised
    case Some(p) =>
      if Locked(p, now) || now > p.expiresAt || p.otpHash != hashed then Raised
      else Issued(TokenFor(id, now))
  }

  function Verified(db: Database, id: BoardId): Database {
    db.(pending := map k | k in db.pending && k != id :: db.pending[k])
  }

  /** `claims` is what decoding the presented token yields; None when it is not genuine. */
  function CompleteResponse(db: Database, now: int, id: BoardId, claims: Option<Token>): Response {
    if claims.None? || claims.value.expiresAt <= now || claims.value.subject != id then Raised
    else
      var k := ByBoard(db.users, id);
      if k == |db.users| || db.users[k].status != PENDING then Raised else Completed
  }

  function Activated(db: Database, id: BoardId): Database
    requires ByBoard(db.users, id) < |db.users|
  {
    var k := ByBoard(db.users, id);
    db.(users := db.users[k := db.users[k].(status := ACTIVE)])
  }

  predicate IsBoardUser(u: User, id: BoardId) {
    u.boardId == Some(id) && u.isBoard
  }

  function Cleared(users: seq<User>, id: BoardId): (r: seq<User>)
    ensures |r| == |users|
    ensures forall i :: 0 <= i < |users| ==>
              r[i] == if IsBoardUser(users[i], id) then users[i].(status := PENDING, firebaseUid := None) else users[i]
  {
    if users == [] then []
    else
      [if IsBoardUser(users[0], id) then users[0].(status := PENDING, firebaseUid := None) else users[0]]
      + Cleared(users[1..], id)
  }

  // ---- The service ----

  /** The session of one request after another; `commits` is whether the database accepts the work. */
  class AuthService {
    const otpHash: OtpHash
    var users: seq<User>
    var pending: map<BoardId, Pending>

    constructor (otpHash: OtpHash)
      ensures this.otpHash == otpHash && Contents() == Database([], map[])
    {
      this.otpHash, users, pending := otpHash, [], map[];
    }

    function Contents(): Database
      reads this
    {
      Database(users, pending)
    }

    method Rollback(saved: Database)
      modifies this
      ensures Contents() == saved
    {
      users, pending := saved.users, saved.pending;
    }

    method Initiate(now: int, id: BoardId, uid: string, email: string, otp: string, commits: bool)
      returns (r: Response)
      modifies this
      ensures r == if commits then InitiateResponse(old(Contents()), now, id, email)
                   else if InitiateResponse(old(Contents()), now, id, email) == AlreadyRegistered then AlreadyRegistered
                   else Raised
      ensures Contents() == if r == OtpRequired then Initiated(old(Contents()), now, id, uid, email, otpHash(otp))
                            else old(Contents())
    {
      var saved := Contents();
      var k := ByEmail(users, email);
      if k < |users| {
        if users[k].status == ACTIVE { return AlreadyRegistered; }
        if users[k].status == SUSPENDED { return Raised; }
      } else {
        if ByBoard(users, id) < |users| { return Raised; }
        users := users + [User(email, Some(id), PENDING, true, Some(uid))];
      }
      if id in pending {
        var p := pending[id];
        if p.lockedUntil.Some? && p.lockedUntil.value > now {
          Rollback(saved);
          return Raised;
        }
        if p.attempts >= OTP_MAX_ATTEMPTS {
          pending := pending[id := p.(lockedUntil := Some(now + OTP_LOCKOUT_MS), attempts := OTP_MAX_ATTEMPTS)];
          Rollback(saved);
          return Raised;
        }
      }
      if id !in pending {
        pending := pending[id := Pending(otpHash(otp), now + OTP_LIFETIME_MS, 0, None)];
      } else {
        pending := pending[id := pending[id].(otpHash := otpHash(otp))];
        pending := pending[id := pending[id].(expiresAt := now + OTP_LIFETIME_MS)];
        pending := pending[id := pending[id].(attempts := 0, lockedUntil := None)];
      }
      if !commits {
        Rollback(saved);
        return Raised;
      }
      r := OtpRequired;
    }

    method Verify(now: int, id: BoardId, otp: string, commits: bool) returns (r: Response)
      modifies this
      ensures r == if commits then VerifyResponse(old(Contents()), now, id, otpHash(otp)) else Raised
      ensures Contents() == if r != Raised then Verified(old(Contents()), id) else old(Contents())
    {
      var saved := Contents();
      if id !in pending { return Raised; }
      var p := pending[id];
      if p.lockedUntil.Some? && p.lockedUntil.value > now { return Raised; }
      if p.attempts >= OTP_MAX_ATTEMPTS {
        pending := pending[id := p.(lockedUntil := Some(now + OTP_LOCKOUT_MS), attempts := OTP_MAX_ATTEMPTS)];
        Rollback(saved);
        return Raised;
      }
      if now > p.expiresAt { return Raised; }
      if p.otpHash != otpHash(otp) {
        pending := pending[id := p.(attempts := p.attempts + 1)];
        Rollback(saved);
        return Raised;
      }
      var token := TokenFor(id, now);
      pending := map k | k in pending && k != id :: pending[k];
      if !commits {
        Rollback(saved);
        return Raised;
      }
      r := Issued(token);
    }

    method Complete(now: int, id: BoardId, claims: Option<Token>, commits: bool) returns (r: Response)
      modifies this
      ensures r == if commits then CompleteResponse(old(Contents()), now, id, claims) else Raised
      ensures r == Completed ==> ByBoard(old(users), id) < |old(users)| && Contents() == Activated(old(Contents()), id)
      ensures r != Completed ==> Contents() == old(Contents())
    {
      var saved := Contents();
      if claims.None? || claims.value.expiresAt <= now { return Raised; }
      if claims.value.subject != id { return Raised; }
      var k := ByBoard(users, id);
      if k == |users| { return Raised; }
      if users[k].status != PENDING { return Raised; }
      users := users[k := users[k].(status := ACTIVE)];
      if !commits {
        Rollback(saved);
        return Raised;
      }
      r := Completed;
    }

    /** admin_deregister_board; it raises after its commit when no row matched. */
    method Deregister(id: BoardId) returns (r: Response)
      modifies this
      ensures Contents() == old(Contents()).(users := Cleared(old(users), id))
      ensures |users| == |old(users)| && pending == old(pending)
      ensures forall i :: 0 <= i < |users| ==>
                users[i] == if old(users)[i].boardId == Some(id) && old(users)[i].isBoard
                            then old(users)[i].(status := PENDING, firebaseUid := None) else old(users)[i]
      ensures r == if exists u :: u in old(users) && IsBoardUser(u, id) then Deregistered else Raised
    {
      var matched := exists u :: u in users && IsBoardUser(u, id);
      users := Cleared(users, id);
      r := if matched then Deregistered else Raised;
    }
  }

  // ---- Runs of requests ----

  /** One request and the instant it is served at. */
  datatype Request =
    | Initiate(now: int, id: BoardId, uid: string, email: string, otp: string, commits: bool)
    | Verify(now: int, id: BoardId, otp: string, commits: bool)
    | Complete(now: int, id: BoardId, token: Token, commits: bool)
    | Deregister(now: int, id: BoardId)

  /** What happened, in order. */
  datatype Fact =
    | Stored(id: BoardId, at: int, hashed: string)
    | OtpAccepted(id: BoardId, at: int, hashed: string)
    | TurnedActive(id: BoardId, at: int)

  datatype System = System(db: Database, tokens: set<Token>, history: seq<Fact>)

  /** Before the first registration: any users, no OTP stored, no token issued. */
  function Start(users: seq<User>): System {
    System(Database(users, map[]), {}, [])
  }

  /** Tokens cannot be forged: only one that was issued decodes to claims. */
  function Claims(s: System, token: Token): Option<Token> {
    if token in s.tokens then Some(token) else None
  }

  /** One request; a verification token may reach the client even if the commit then fails. */
  function Next(otpHash: OtpHash, s: System, q: Request): System {
    match q
    case Initiate(now, id, uid, email, otp, commits) =>
      if commits && InitiateResponse(s.db, now, id, email) == OtpRequired then
        s.(db := Initiated(s.db, now, id, uid, email, otpHash(otp)),
           history := s.history + [Stored(id, now, otpHash(otp))])
      else s
    case Verify(now, id, otp, commits) =>
      (match VerifyResponse(s.db, now, id, otpHash(otp))
       case Issued(token) =>
         s.(db := if commits then Verified(s.db, id) else s.db,
            tokens := s.tokens + {token},
            history := s.history + [OtpAccepted(id, now, otpHash(otp))])
       case _ => s)
    case Complete(now, id, token, commits) =>
      if commits && CompleteResponse(s.db, now, id, Claims(s, token)) == Completed then
        s.(db := Activated(s.db, id), history := s.history + [TurnedActive(id, now)])
      else s
    case Deregister(_, id) => s.(db := s.db.(users := Cleared(s.db.users, id)))
  }

  /** What the client gets; a commit that fails turns an answer that changed rows into an error. */
  function Answer(otpHash: OtpHash, s: System, q: Request): Response {
    match q
    case Initiate(now, id, _, email, _, commits) =>
      var r := InitiateResponse(s.db, now, id, email);
      if commits || r == AlreadyRegistered then r else Raised
    case Verify(now, id, otp, commits) =>
      if commits then VerifyResponse(s.db, now, id, otpHash(otp)) else Raised
    case Complete(now, id, token, commits) =>
      if commits then CompleteResponse(s.db, now, id, Claims(s, token)) else Raised
    case Deregister(_, id) =>
      if exists u :: u in s.db.users && IsBoardUser(u, id) then Deregistered else Raised
  }

  lemma VerifyAnswers(db: Database, now: int, id: BoardId, hashed: string)
    ensures VerifyResponse(db, now, id, hashed) == Raised || VerifyResponse(db, now, id, hashed).Issued?
  {
  }

  /** A request that raises leaves the database as it was, whichever request it is. */
  lemma RaisedKeeps(otpHash: OtpHash, s: System, q: Request)
    requires Answer(otpHash, s, q) == Raised
    ensures Next(otpHash, s, q).db == s.db
  {
    if q.Deregister? {
      assert forall i :: 0 <= i < |s.db.users| ==> s.db.users[i] in s.db.users;
      assert Cleared(s.db.users, q.id) == s.db.users;
    }
  }

  /** The service behind its endpoints, with the tokens it has handed out. */
  class Endpoints {
    const service: AuthService
    var tokens: set<Token>

    constructor (otpHash: OtpHash)
      ensures service.otpHash == otpHash && Shows(Start([])) && fresh(service)
    {
      service := new AuthService(otpHash);
      tokens := {};
    }

    ghost predicate Shows(s: System)
      reads this, service
    {
      service.Contents() == s.db && tokens == s.tokens
    }

    /** One request; a token whose commit fails counts as handed out, as it may have been sent. */
    method Handle(q: Request, ghost s: System) returns (r: Response)
      requires Shows(s)
      modifies this, service
      ensures r == Answer(service.otpHash, s, q) && Shows(Next(service.otpHash, s, q))
    {
      hide Locked, InitiateResponse, Initiated, VerifyResponse, CompleteResponse, Activated, Verified;
      hide ByBoard, ByEmail, Cleared;
      match q
      case Initiate(now, id, uid, email, otp, commits) =>
        r := service.Initiate(now, id, uid, email, otp, commits);
      case Verify(now, id, otp, commits) =>
        var response := VerifyResponse(service.Contents(), now, id, service.otpHash(otp));
        r := service.Verify(now, id, otp, commits);
        VerifyAnswers(s.db, now, id, service.otpHash(otp));
        if response.Issued? { tokens := tokens + {response.token}; }
      case Complete(now, id, token, commits) =>
        r := service.Complete(now, id, if token in tokens then Some(token) else None, commits);
      case Deregister(_, id) =>
        r := service.Deregister(id);
    }
  }

  function Following(otpHash: OtpHash, s: System, run: seq<Request>): System {
    if run == [] then s
    else Next(otpHash, Following(otpHash, s, run[..|run| - 1]), run[|run| - 1])
  }

  function After(otpHash: OtpHash, users: seq<User>, run: seq<Request>): System {
    Following(otpHash, Start(users), run)
  }

  /** The clock never runs backwards. */
  predicate InOrder(run: seq<Request>) {
    forall i, j :: 0 <= i < j < |run| ==> run[i].now <= run[j].now
  }

  // ---- The activation chain ----

  /** An OTP for `id` with this hash was stored at most `OTP_LIFETIME_MS` before `at`. */
  predicate StoredBefore(history: seq<Fact>, id: BoardId, hashed: string, at: int) {
    exists i :: 0 <= i < |history| && history[i].Stored? && history[i].id == id
      && history[i].hashed == hashed && history[i].at <= at <= history[i].at + OTP_LIFETIME_MS
  }

  /** A stored OTP for `id` was accepted at most `TOKEN_LIFETIME_MS` before the instant `at`. */
  predicate AcceptedBefore(history: seq<Fact>, id: BoardId, at: int) {
    exists j :: 0 <= j < |history| && history[j].OtpAccepted? && history[j].id == id
      && history[j].at <= at < history[j].at + TOKEN_LIFETIME_MS
      && StoredBefore(history[..j], id, history[j].hashed, history[j].at)
  }

  /** Every activation in the history is backed by the facts before it. */
  predicate Backed(history: seq<Fact>) {
    forall k :: 0 <= k < |history| && history[k].TurnedActive? ==>
      AcceptedBefore(history[..k], history[k].id, history[k].at)
  }

  /** The stored OTP of `p` is the one some Stored fact put there. */
  predicate PendingKnown(history: seq<Fact>, id: BoardId, p: Pending) {
    exists i :: 0 <= i < |history| && history[i] == Stored(id, p.expiresAt - OTP_LIFETIME_MS, p.otpHash)
  }

  /** A token was issued on accepting a stored OTP, and outlives that by its lifetime at most. */
  predicate TokenKnown(history: seq<Fact>, token: Token) {
    exists j :: 0 <= j < |history| && history[j].OtpAccepted? && history[j].id == token.subject
      && token.expiresAt <= history[j].at + TOKEN_LIFETIME_MS
      && StoredBefore(history[..j], token.subject, history[j].hashed, history[j].at)
  }

  ghost predicate Inv(s: System, clock: int) {
    && Backed(s.history)
    && (forall id :: id in s.db.pending ==> PendingKnown(s.history, id, s.db.pending[id]))
    && (forall token :: token in s.tokens ==> TokenKnown(s.history, token))
    && (forall i :: 0 <= i < |s.history| ==> s.history[i].at <= clock)
  }

  lemma StoredGrows(history: seq<Fact>, f: Fact)
    ensures forall id, p :: PendingKnown(history, id, p) ==> PendingKnown(history + [f], id, p)
    ensures forall token :: TokenKnown(history, token) ==> TokenKnown(history + [f], token)
  {
    forall id, p | PendingKnown(history, id, p) ensures PendingKnown(history + [f], id, p) {
      var i :| 0 <= i < |history| && history[i] == Stored(id, p.expiresAt - OTP_LIFETIME_MS, p.otpHash);
      assert (history + [f])[i] == history[i];
    }
    forall token | TokenKnown(history, token) ensures TokenKnown(history + [f], token) {
      var j :| 0 <= j < |history| && history[j].OtpAccepted? && history[j].id == token.subject
        && token.expiresAt <= history[j].at + TOKEN_LIFETIME_MS
        && StoredBefore(history[..j], token.subject, history[j].hashed, history[j].at);
      assert (history + [f])[j] == history[j] && (history + [f])[..j] == history[..j];
    }
  }

  lemma BackedGrows(history: seq<Fact>, f: Fact)
    requires Backed(history) && (f.TurnedActive? ==> AcceptedBefore(history, f.id, f.at))
    ensures Backed(history + [f])
  {
    hide AcceptedBefore;
    forall k | 0 <= k < |history| + 1 && (history + [f])[k].TurnedActive?
      ensures AcceptedBefore((history + [f])[..k], (history + [f])[k].id, (history + [f])[k].at)
    {
      if k < |history| {
        assert (history + [f])[..k] == history[..k];
      } else {
        assert (history + [f])[..k] == history;
      }
    }
  }

  lemma InitiateKeeps(otpHash: OtpHash, s: System, q: Request, clock: int)
    requires Inv(s, clock) && q.Initiate? && clock <= q.now
    ensures Inv(Next(otpHash, s, q), q.now)
  {
    hide Backed, PendingKnown, TokenKnown, InitiateResponse;
    if q.commits && InitiateResponse(s.db, q.now, q.id, q.email) == OtpRequired {
      var f := Stored(q.id, q.now, otpHash(q.otp));
      StoredGrows(s.history, f);
      BackedGrows(s.history, f);
      NewPendingKnown(s.history, f);
    }
  }

  lemma NewPendingKnown(history: seq<Fact>, f: Fact)
    requires f.Stored?
    ensures PendingKnown(history + [f], f.id, Pending(f.hashed, f.at + OTP_LIFETIME_MS, 0, None))
  {
    assert (history + [f])[|history|] == f;
  }

  lemma VerifyKeeps(otpHash: OtpHash, s: System, q: Request, clock: int)
    requires Inv(s, clock) && q.Verify? && clock <= q.now
    ensures Inv(Next(otpHash, s, q), q.now)
  {
    hide Backed, PendingKnown, TokenKnown, VerifyResponse, TokenFor;
    var hashed := otpHash(q.otp);
    var r := VerifyResponse(s.db, q.now, q.id, hashed);
    if r.Issued? {
      var f := OtpAccepted(q.id, q.now, hashed);
      AcceptedOtp(s, q.now, q.id, hashed);
      StoredGrows(s.history, f);
      BackedGrows(s.history, f);
      NewTokenKnown(s, clock, q.now, q.id, hashed);
    }
  }

  lemma AcceptedOtp(s: System, now: int, id: BoardId, hashed: string)
    requires VerifyResponse(s.db, now, id, hashed).Issued?
    ensures VerifyResponse(s.db, now, id, hashed) == Issued(TokenFor(id, now))
    ensures id in s.db.pending && s.db.pending[id].otpHash == hashed && now <= s.db.pending[id].expiresAt
  {
  }

  lemma NewTokenKnown(s: System, clock: int, now: int, id: BoardId, hashed: string)
    requires Inv(s, clock) && clock <= now && id in s.db.pending
    requires s.db.pending[id].otpHash == hashed && now <= s.db.pending[id].expiresAt
    ensures TokenKnown(s.history + [OtpAccepted(id, now, hashed)], TokenFor(id, now))
  {
    var h, f := s.history, OtpAccepted(id, now, hashed);
    assert PendingKnown(h, id, s.db.pending[id]);
    var i :| 0 <= i < |h| && h[i] == Stored(id, s.db.pending[id].expiresAt - OTP_LIFETIME_MS, hashed);
    assert h[i].at <= clock;
    assert StoredBefore(h, id, hashed, now);
    assert (h + [f])[|h|] == f && (h + [f])[..|h|] == h;
  }

  lemma CompleteKeeps(otpHash: OtpHash, s: System, q: Request, clock: int)
    requires Inv(s, clock) && q.Complete? && clock <= q.now
    ensures Inv(Next(otpHash, s, q), q.now)
  {
    hide Backed, PendingKnown, StoredBefore;
    if q.commits && CompleteResponse(s.db, q.now, q.id, Claims(s, q.token)) == Completed {
      var f := TurnedActive(q.id, q.now);
      assert TokenKnown(s.history, q.token);
      assert AcceptedBefore(s.history, q.id, q.now);
      StoredGrows(s.history, f);
      BackedGrows(s.history, f);
    }
  }

  lemma {:induction false} RunKeeps(otpHash: OtpHash, users: seq<User>, run: seq<Request>, clock: int)
    requires InOrder(run) && forall q :: q in run ==> q.now <= clock
    ensures Inv(After(otpHash, users, run), clock)
  {
    hide Backed, PendingKnown, TokenKnown, Next;
    if run != [] {
      var n := |run| - 1;
      var q := run[n];
      forall p | p in run[..n] ensures p.now <= q.now {
        var i :| 0 <= i < n && run[i] == p;
      }
      RunKeeps(otpHash, users, run[..n], q.now);
      StepKeeps(otpHash, After(otpHash, users, run[..n]), q);
      InvLater(After(otpHash, users, run), q.now, clock);
    } else {
      NothingBacked();
    }
  }

  lemma NothingBacked()
    ensures Backed([])
  {
  }

  lemma InvLater(s: System, clock: int, later: int)
    requires Inv(s, clock) && clock <= later
    ensures Inv(s, later)
  {
    hide Backed, PendingKnown, TokenKnown;
  }

  lemma StepKeeps(otpHash: OtpHash, s: System, q: Request)
    requires Inv(s, q.now)
    ensures Inv(Next(otpHash, s, q), q.now)
  {
    hide Inv;
    match q
    case Initiate(_, _, _, _, _, _) => InitiateKeeps(otpHash, s, q, q.now);
    case Verify(_, _, _, _) => VerifyKeeps(otpHash, s, q, q.now);
    case Complete(_, _, _, _) => CompleteKeeps(otpHash, s, q, q.now);
    case Deregister(_, _) => DeregisterKeeps(otpHash, s, q);
  }

  lemma DeregisterKeeps(otpHash: OtpHash, s: System, q: Request)
    requires Inv(s, q.now) && q.Deregister?
    ensures Inv(Next(otpHash, s, q), q.now)
  {
    hide Backed, PendingKnown, TokenKnown;
  }

  /**
   * In every run, a board turned active at an instant only if an OTP for that board was
   * accepted less than 15 minutes before, and that OTP was stored for the same board at most
   * 10 minutes before it was accepted.
   */
  lemma ActivationChain(otpHash: OtpHash, users: seq<User>, run: seq<Request>, k: nat)
    requires InOrder(run)
    requires k < |After(otpHash, users, run).history| && After(otpHash, users, run).history[k].TurnedActive?
    ensures var h := After(otpHash, users, run).history;
            AcceptedBefore(h[..k], h[k].id, h[k].at)
  {
    hide AcceptedBefore, PendingKnown, TokenKnown, After;
    if run != [] {
      var clock := run[|run| - 1].now;
      forall q | q in run ensures q.now <= clock {
        var i :| 0 <= i < |run| && run[i] == q;
      }
      RunKeeps(otpHash, users, run, clock);
    } else {
      NoFacts(otpHash, users);
    }
  }

  lemma NoFacts(otpHash: OtpHash, users: seq<User>)
    ensures After(otpHash, users, []).history == []
  {
  }

  // ---- The attempt counter ----

  predicate Untried(db: Database) {
    forall id :: id in db.pending ==> db.pending[id].attempts == 0 && db.pending[id].lockedUntil == None
  }

  /** In every run no stored OTP ever counts an attempt or gets locked: a failed try rolls back. */
  lemma {:induction false} NeverLocked(otpHash: OtpHash, users: seq<User>, run: seq<Request>)
    ensures var db := After(otpHash, users, run).db;
            && Untried(db)
            && forall id, now :: id in db.pending ==> !Locked(db.pending[id], now)
  {
    if run != [] { NeverLocked(otpHash, users, run[..|run| - 1]); }
  }

  /** So every wrong OTP is answered like the first one: its own answer is all that depends on it. */
  lemma TriesUnlimited(otpHash: OtpHash, users: seq<User>, run: seq<Request>, now: int, id: BoardId, otp: string)
    requires var db := After(otpHash, users, run).db;
             id in db.pending && now <= db.pending[id].expiresAt
    ensures var db := After(otpHash, users, run).db;
            VerifyResponse(db, now, id, otpHash(otp)).Issued? <==> db.pending[id].otpHash == otpHash(otp)
  {
    hide After, Locked;
    NeverLocked(otpHash, users, run);
  }

  // ---- Statuses change only as the history says ----

  function Status(users: seq<User>, id: BoardId): Option<AuthStatus> {
    var k := ByBoard(users, id);
    if k < |users| then Some(users[k].status) else None
  }

  lemma {:induction false} SameBoards(a: seq<User>, b: seq<User>, id: BoardId)
    requires |a| == |b| && forall i :: 0 <= i < |a| ==> a[i].boardId == b[i].boardId
    ensures ByBoard(a, id) == ByBoard(b, id)
  {
    if a != [] { SameBoards(a[1..], b[1..], id); }
  }

  lemma {:induction false} OneMoreUser(users: seq<User>, u: User, id: BoardId)
    ensures ByBoard(users + [u], id) == if ByBoard(users, id) < |users| || u.boardId == Some(id) then ByBoard(users, id)
                                        else |users| + 1
  {
    if users != [] {
      assert (users + [u])[1..] == users[1..] + [u];
      OneMoreUser(users[1..], u, id);
    } else {
      assert users + [u] == [u];
    }
  }

  /** A board's user becomes ACTIVE in no other way than by a Complete request for that board. */
  lemma OnlyCompleteActivates(otpHash: OtpHash, s: System, q: Request, id: BoardId)
    requires Status(s.db.users, id) != Some(ACTIVE)
    requires Status(Next(otpHash, s, q).db.users, id) == Some(ACTIVE)
    ensures q.Complete? && q.id == id
    ensures Next(otpHash, s, q).history == s.history + [TurnedActive(id, q.now)]
  {
    var users, users' := s.db.users, Next(otpHash, s, q).db.users;
    if |users'| == |users| {
      SameBoards(users, users', id);
      SameBoards(users, users', q.id);
    } else {
      OneMoreUser(users, users'[|users|], id);
    }
  }

  /** The chain, stated on the database: no board becomes ACTIVE without it. */
  lemma ActiveOnlyAfterChain(otpHash: OtpHash, users: seq<User>, run: seq<Request>, q: Request, id: BoardId)
    requires InOrder(run + [q])
    requires Status(After(otpHash, users, run).db.users, id) != Some(ACTIVE)
    requires Status(After(otpHash, users, run + [q]).db.users, id) == Some(ACTIVE)
    ensures AcceptedBefore(After(otpHash, users, run).history, id, q.now)
  {
    hide AcceptedBefore, Next, Status;
    assert (run + [q])[..|run|] == run;
    var h := After(otpHash, users, run).history;
    OnlyCompleteActivates(otpHash, After(otpHash, users, run), q, id);
    ActivationChain(otpHash, users, run + [q], |h|);
    assert (h + [TurnedActive(id, q.now)])[..|h|] == h;
  }

  /** The chain can be completed: a fresh board that verifies and completes in time is ACTIVE. */
  lemma FreshBoardActivates(otpHash: OtpHash, id: BoardId, uid: string, email: string, otp: string,
                            t: int, u: int, v: int)
    requires t <= u <= t + OTP_LIFETIME_MS && u <= v < TokenFor(id, u).expiresAt
    ensures var run := [Initiate(t, id, uid, email, otp, true), Verify(u, id, otp, true),
                        Complete(v, id, TokenFor(id, u), true)];
            Status(After(otpHash, [], run).db.users, id) == Some(ACTIVE)
  {
    var a, b := Initiate(t, id, uid, email, otp, true), Verify(u, id, otp, true);
    var c := Complete(v, id, TokenFor(id, u), true);
    var s1 := Next(otpHash, Start([]), a);
    assert s1.db.users == [User(email, Some(id), PENDING, true, Some(uid))];
    var s2 := Next(otpHash, s1, b);
    assert s2.db.users == s1.db.users && TokenFor(id, u) in s2.tokens;
    ThreeRequests(otpHash, a, b, c);
  }

  lemma ThreeRequests(otpHash: OtpHash, a: Request, b: Request, c: Request)
    ensures After(otpHash, [], [a, b, c]) == Next(otpHash, Next(otpHash, Next(otpHash, Start([]), a), b), c)
  {
    hide Next;
    assert [a, b, c][..2] == [a, b] && [a, b][..1] == [a] && [a][..0] == [];
    assert Following(otpHash, Start([]), [a]) == Next(otpHash, Start([]), a);
    assert Following(otpHash, Start([]), [a, b]) == Next(otpHash, Next(otpHash, Start([]), a), b);
  }

  // ---- What each answer takes ----

  /** A complete request succeeds exactly for a live, genuine token of a board that is PENDING. */
  lemma CompleteExactly(otpHash: OtpHash, s: System, now: int, id: BoardId, token: Token, commits: bool)
    ensures Answer(otpHash, s, Complete(now, id, token, commits)) == Completed <==>
              commits && token in s.tokens && now < token.expiresAt && token.subject == id
              && Status(s.db.users, id) == Some(PENDING)
  {
  }

  /** It turns that board's user from PENDING to ACTIVE and changes nothing else. */
  lemma CompletedTurns(otpHash: OtpHash, s: System, q: Request)
    requires Answer(otpHash, s, q) == Completed
    ensures q.Complete? && Status(s.db.users, q.id) == Some(PENDING)
    ensures var t := Next(otpHash, s, q);
            && Status(t.db.users, q.id) == Some(ACTIVE) && t.db.pending == s.db.pending
            && |t.db.users| == |s.db.users|
            && (forall i :: 0 <= i < |s.db.users| && s.db.users[i].boardId != Some(q.id) ==>
                  t.db.users[i] == s.db.users[i])
            && (forall i :: 0 <= i < |s.db.users| ==>
                  t.db.users[i] == s.db.users[i] || t.db.users[i] == s.db.users[i].(status := ACTIVE))
  {
    SameBoards(s.db.users, Next(otpHash, s, q).db.users, q.id);
  }

  /** No request but a deregister of the board takes it out of ACTIVE or SUSPENDED. */
  lemma StatusKept(otpHash: OtpHash, s: System, q: Request, id: BoardId)
    requires Status(s.db.users, id) == Some(SUSPENDED) || Status(s.db.users, id) == Some(ACTIVE)
    requires !(q.Deregister? && q.id == id)
    ensures Status(Next(otpHash, s, q).db.users, id) == Status(s.db.users, id)
  {
    var users, users' := s.db.users, Next(otpHash, s, q).db.users;
    if |users'| == |users| {
      SameBoards(users, users', id);
      SameBoards(users, users', q.id);
    } else {
      OneMoreUser(users, users'[|users|], id);
    }
  }

  predicate Deregisters(run: seq<Request>, id: BoardId) {
    exists i :: 0 <= i < |run| && run[i].Deregister? && run[i].id == id
  }

  /** In every run an ACTIVE or SUSPENDED board stays so until it is deregistered. */
  lemma {:induction false} StaysUntilDeregistered(otpHash: OtpHash, s: System, run: seq<Request>, id: BoardId)
    requires Status(s.db.users, id) == Some(SUSPENDED) || Status(s.db.users, id) == Some(ACTIVE)
    requires !Deregisters(run, id)
    ensures Status(Following(otpHash, s, run).db.users, id) == Status(s.db.users, id)
  {
    hide Next, Status;
    if run != [] {
      var n := |run| - 1;
      assert forall i :: 0 <= i < n ==> run[..n][i] == run[i];
      StaysUntilDeregistered(otpHash, s, run[..n], id);
      StatusKept(otpHash, Following(otpHash, s, run[..n]), run[n], id);
    }
  }

  /** Between two completions of one board it was deregistered. */
  lemma CompletedTwice(otpHash: OtpHash, s: System, first: Request, run: seq<Request>, second: Request)
    requires Answer(otpHash, s, first) == Completed
    requires Answer(otpHash, Following(otpHash, Next(otpHash, s, first), run), second) == Completed
    requires first.id == second.id
    ensures Deregisters(run, first.id)
  {
    hide Next, Status, Answer, Following;
    CompletedTurns(otpHash, s, first);
    CompletedTurns(otpHash, Following(otpHash, Next(otpHash, s, first), run), second);
    if !Deregisters(run, first.id) {
      StaysUntilDeregistered(otpHash, Next(otpHash, s, first), run, first.id);
    }
  }

  /** A one-time password is accepted exactly while it is stored, unlocked and unexpired, on its own hash. */
  lemma VerifyExactly(otpHash: OtpHash, s: System, now: int, id: BoardId, otp: string)
    ensures Answer(otpHash, s, Verify(now, id, otp, true)).Issued? <==>
              && id in s.db.pending && s.db.pending[id].attempts < 10 && now <= s.db.pending[id].expiresAt
              && (s.db.pending[id].lockedUntil == None || s.db.pending[id].lockedUntil.value <= now)
              && s.db.pending[id].otpHash == otpHash(otp)
  {
  }

  /** The token is for this board and ends at the last full second within 15 minutes; the password is gone. */
  lemma IssuedToken(otpHash: OtpHash, s: System, q: Request)
    requires Answer(otpHash, s, q).Issued?
    ensures q.Verify? && q.commits
    ensures var token, t := Answer(otpHash, s, q).token, Next(otpHash, s, q);
            && token.subject == q.id && token.expiresAt % 1000 == 0
            && q.now + 899_000 < token.expiresAt <= q.now + 900_000
            && t.tokens == s.tokens + {token} && t.db.users == s.db.users
            && q.id !in t.db.pending
            && (forall id :: id in s.db.pending && id != q.id ==>
                  id in t.db.pending && t.db.pending[id] == s.db.pending[id])
            && (forall id :: id in t.db.pending ==> id in s.db.pending)
  {
  }

  predicate Initiates(run: seq<Request>, id: BoardId) {
    exists i :: 0 <= i < |run| && run[i].Initiate? && run[i].id == id
  }

  lemma {:induction false} NoOtpWithoutInitiate(otpHash: OtpHash, s: System, run: seq<Request>, id: BoardId)
    requires id !in s.db.pending && !Initiates(run, id)
    ensures id !in Following(otpHash, s, run).db.pending
  {
    if run != [] {
      var n := |run| - 1;
      assert forall i :: 0 <= i < n ==> run[..n][i] == run[i];
      NoOtpWithoutInitiate(otpHash, s, run[..n], id);
    }
  }

  /** A one-time password is used once: between two tokens for a board there was an initiate for it. */
  lemma IssuedTwice(otpHash: OtpHash, s: System, first: Request, run: seq<Request>, second: Request)
    requires Answer(otpHash, s, first).Issued?
    requires Answer(otpHash, Following(otpHash, Next(otpHash, s, first), run), second).Issued?
    requires first.id == second.id
    ensures Initiates(run, first.id)
  {
    hide Next, Following;
    IssuedToken(otpHash, s, first);
    if !Initiates(run, first.id) {
      NoOtpWithoutInitiate(otpHash, Next(otpHash, s, first), run, first.id);
    }
  }

  predicate Unlocked(db: Database, now: int, id: BoardId) {
    id in db.pending ==>
      && db.pending[id].attempts < 10
      && (db.pending[id].lockedUntil == None || db.pending[id].lockedUntil.value <= now)
  }

  /** Initiating for an email that has a user. */
  lemma InitiateKnown(otpHash: OtpHash, s: System, q: Request, k: nat)
    requires q.Initiate? && k < |s.db.users| && s.db.users[k].email == q.email
    requires forall i :: 0 <= i < |s.db.users| && i != k ==> s.db.users[i].email != q.email
    ensures s.db.users[k].status == ACTIVE ==> Answer(otpHash, s, q) == AlreadyRegistered
    ensures s.db.users[k].status == SUSPENDED ==> Answer(otpHash, s, q) == Raised
    ensures s.db.users[k].status == PENDING ==>
              Answer(otpHash, s, q) == if q.commits && Unlocked(s.db, q.now, q.id) then OtpRequired else Raised
    ensures Next(otpHash, s, q).db.users == s.db.users
  {
    assert ByEmail(s.db.users, q.email) == k;
  }

  /** Initiating for an email that has none: a board that is taken is refused. */
  lemma InitiateNew(otpHash: OtpHash, s: System, q: Request)
    requires q.Initiate? && forall u :: u in s.db.users ==> u.email != q.email
    ensures (exists u :: u in s.db.users && u.boardId == Some(q.id)) ==> Answer(otpHash, s, q) == Raised
    ensures (forall u :: u in s.db.users ==> u.boardId != Some(q.id)) ==>
              Answer(otpHash, s, q) == if q.commits && Unlocked(s.db, q.now, q.id) then OtpRequired else Raised
    ensures Answer(otpHash, s, q) == OtpRequired ==>
              Next(otpHash, s, q).db.users
              == s.db.users + [User(q.email, Some(q.id), PENDING, true, Some(q.uid))]
  {
    assert ByEmail(s.db.users, q.email) == |s.db.users|;
    if u :| u in s.db.users && u.boardId == Some(q.id) {
      var i :| 0 <= i < |s.db.users| && s.db.users[i] == u;
    }
  }

  /** A successful initiate stores the new password's hash for ten minutes; any other changes nothing. */
  lemma InitiateStores(otpHash: OtpHash, s: System, q: Request)
    requires q.Initiate?
    ensures var t := Next(otpHash, s, q);
            if Answer(otpHash, s, q) == OtpRequired
            then t.db.pending == s.db.pending[q.id := Pending(otpHash(q.otp), q.now + 600_000, 0, None)]
            else t == s
  {
  }
}

/**
 The rotation of refresh tokens in app/services/auth_service.py. Tokens are fresh random numbers and their hash
 is taken to be injective, so a row is found by its token.
 */
module RefreshTokens {
  import opened Types

  /** A UserSession row. */
  datatype Login = Login(user: Id, token: Id, revoked: bool, expiresAt: int)

  /** The rows in order of creation, and for each the row whose token was traded for it, which is history. */
  datatype Table = Table(rows: seq<Login>, parents: seq<Option<nat>>)

  function Find(rows: seq<Login>, token: Id): (r: Option<nat>)
    ensures r.Some? ==> r.value < |rows| && rows[r.value].token == token
    ensures r.None? ==> forall i :: 0 <= i < |rows| ==> rows[i].token != token
  {
    if rows == [] then None
    else if rows[|rows| - 1].token == token then Some(|rows| - 1)
    else Find(rows[..|rows| - 1], token)
  }

  /** A row that a refresh accepts at this time. */
  predicate Usable(row: Login, now: int) {
    !row.revoked && now <= row.expiresAt
  }

  /** What a refresh writes once it has accepted row i. */
  function Rotated(t: Table, i: nat, token: Id, expiresAt: int): Table
    requires i < |t.rows|
  {
    Table(t.rows[i := t.rows[i].(revoked := true)] + [Login(t.rows[i].user, token, false, expiresAt)], t.parents + [Some(i)])
  }

  function LoggedIn(t: Table, user: Id, token: Id, expiresAt: int): Table {
    Table(t.rows + [Login(user, token, false, expiresAt)], t.parents + [None])
  }

  predicate Older(t: Table) {
    |t.parents| == |t.rows| && forall i :: 0 <= i < |t.parents| && t.parents[i].Some? ==> t.parents[i].value < i
  }

  /** Tokens are unique; a traded token is revoked, was the same user's, and was traded once. */
  predicate Chained(t: Table) {
    && Older(t)
    && (forall i, j :: 0 <= i < j < |t.rows| ==> t.rows[i].token != t.rows[j].token)
    && (forall i :: 0 <= i < |t.rows| && t.parents[i].Some? ==>
          t.rows[t.parents[i].value].revoked && t.rows[t.parents[i].value].user == t.rows[i].user)
    && TradedOnce(t)
  }

  predicate TradedOnce(t: Table) {
    forall i, j :: 0 <= i < j < |t.parents| && t.parents[i].Some? ==> t.parents[i] != t.parents[j]
  }

  predicate Traded(t: Table, i: nat) {
    exists j :: 0 <= j < |t.parents| && t.parents[j] == Some(i)
  }

  class AuthService {
    var rows: seq<Login>
    ghost var parents: seq<Option<nat>>

    ghost function Contents(): Table
      reads this
    {
      Table(rows, parents)
    }

    ghost predicate Valid()
      reads this
    {
      Chained(Contents())
    }

    constructor ()
      ensures Valid() && rows == []
    {
      rows, parents := [], [];
    }

    /** The session row at the end of a sign-in. */
    method SignIn(user: Id, token: Id, expiresAt: int)
      requires Valid() && Find(rows, token).None?
      modifies this
      ensures Valid() && Contents() == LoggedIn(old(Contents()), user, token, expiresAt)
      ensures rows == old(rows) + [Login(user, token, false, expiresAt)] && parents == old(parents) + [None]
    {
      rows := rows + [Login(user, token, false, expiresAt)];
      parents := parents + [None];
    }

    /** refresh_access_token; `drawn` is the new token. A refusal rolls the revocation back. */
    method Refresh(token: Id, now: int, active: set<Id>, drawn: Id, expiresAt: int) returns (r: Result<Id>)
      requires Valid() && Find(rows, drawn).None?
      modifies this
      ensures Valid()
      ensures r.Ok? <==> exists i ::
        && 0 <= i < |old(rows)| && old(rows)[i].token == token
        && !old(rows)[i].revoked && now <= old(rows)[i].expiresAt && old(rows)[i].user in active
      ensures r.Err? ==> Contents() == old(Contents())
      ensures r.Ok? ==> r.value == drawn && Find(old(rows), token).Some?
      ensures r.Ok? ==> Contents() == Rotated(old(Contents()), Find(old(rows), token).value, drawn, expiresAt)
      ensures r.Ok? ==> |rows| == |old(rows)| + 1
      ensures r.Ok? ==> forall i :: 0 <= i < |old(rows)| ==>
        rows[i] == if old(rows)[i].token == token then old(rows)[i].(revoked := true) else old(rows)[i]
      ensures r.Ok? ==> forall i :: 0 <= i < |old(rows)| && old(rows)[i].token == token ==>
        rows[|old(rows)|] == Login(old(rows)[i].user, drawn, false, expiresAt)
    {
      var found := Find(rows, token);
      if found.None? || rows[found.value].revoked || rows[found.value].expiresAt < now {
        return Err(ValidationFailed);
      }
      var i := found.value;
      var session := rows[i];
      if session.user !in active {
        return Err(ValidationFailed);
      }
      RotationKeepsChained(Contents(), i, drawn, expiresAt);
      rows := rows[i := session.(revoked := true)];
      rows := rows + [Login(session.user, drawn, false, expiresAt)];
      parents := parents + [Some(i)];
      r := Ok(drawn);
    }

    /** revoke_session */
    method Revoke(token: Id)
      requires Valid()
      modifies this`rows
      ensures Valid()
      ensures rows == var found := Find(old(rows), token);
        if found.Some? then old(rows)[found.value := old(rows)[found.value].(revoked := true)] else old(rows)
      ensures |rows| == |old(rows)| && forall i :: 0 <= i < |rows| ==>
        rows[i] == if old(rows)[i].token == token then old(rows)[i].(revoked := true) else old(rows)[i]
    {
      var found := Find(rows, token);
      if found.Some? {
        rows := rows[found.value := rows[found.value].(revoked := true)];
      }
    }
  }

  /** A live token has not been traded yet, so trading it keeps every token traded at most once. */
  lemma RotationKeepsChained(t: Table, i: nat, token: Id, expiresAt: int)
    requires Chained(t) && i < |t.rows| && !t.rows[i].revoked && Find(t.rows, token).None?
    ensures Chained(Rotated(t, i, token, expiresAt))
  {}

  /** The sign-in that a session goes back to. */
  function SignInOf(t: Table, i: nat): (r: nat)
    requires Older(t) && i < |t.parents|
    ensures r <= i && t.parents[r].None?
    decreases i
  {
    if t.parents[i].None? then i else SignInOf(t, t.parents[i].value)
  }

  /** How often the token of a sign-in was traded to get to session i. */
  function Trades(t: Table, i: nat): nat
    requires Older(t) && i < |t.parents|
    decreases i
  {
    if t.parents[i].None? then 0 else 1 + Trades(t, t.parents[i].value)
  }

  /** If tokens are traded once, the sessions of one sign-in form one line: as many trades, the same session. */
  lemma {:induction false} OneLine(t: Table, i: nat, j: nat)
    requires Older(t) && TradedOnce(t) && i < |t.rows| && j < |t.rows|
    requires SignInOf(t, i) == SignInOf(t, j) && Trades(t, i) == Trades(t, j)
    ensures i == j
    decreases i
  {
    if t.parents[i].Some? {
      OneLine(t, t.parents[i].value, t.parents[j].value);
    }
  }

  /** Every earlier session of the line was traded. */
  lemma {:induction false} EarlierWasTraded(t: Table, i: nat, j: nat)
    requires Older(t) && TradedOnce(t) && i < |t.rows| && j < |t.rows|
    requires SignInOf(t, i) == SignInOf(t, j) && Trades(t, i) < Trades(t, j)
    ensures Traded(t, i)
    decreases j
  {
    var p := t.parents[j].value;
    if Trades(t, i) == Trades(t, p) {
      OneLine(t, i, p);
      assert t.parents[j] == Some(i);
    } else {
      EarlierWasTraded(t, i, p);
    }
  }

  lemma {:induction false} LineIsOfOneUser(t: Table, i: nat)
    requires Chained(t) && i < |t.rows|
    ensures t.rows[SignInOf(t, i)].user == t.rows[i].user
    decreases i
  {
    if t.parents[i].Some? {
      LineIsOfOneUser(t, t.parents[i].value);
    }
  }

  predicate OneUnrevokedEach(t: Table)
    requires Older(t)
  {
    forall i, j :: 0 <= i < |t.rows| && 0 <= j < |t.rows| && Rivals(t, i, j) ==> i == j
  }

  /** Two unrevoked sessions of one sign-in. */
  predicate Rivals(t: Table, i: nat, j: nat)
    requires Older(t) && i < |t.rows| && j < |t.rows|
  {
    SignInOf(t, i) == SignInOf(t, j) && !t.rows[i].revoked && !t.rows[j].revoked
  }

  lemma TradedOnceHasNoRivals(t: Table)
    requires Older(t) && TradedOnce(t) && forall i :: 0 <= i < |t.rows| && Traded(t, i) ==> t.rows[i].revoked
    ensures OneUnrevokedEach(t)
  {
    forall i, j | 0 <= i < |t.rows| && 0 <= j < |t.rows| && Rivals(t, i, j) ensures i == j {
      if Trades(t, i) == Trades(t, j) {
        OneLine(t, i, j);
      } else if Trades(t, i) < Trades(t, j) {
        EarlierWasTraded(t, i, j);
      } else {
        EarlierWasTraded(t, j, i);
      }
    }
  }

  /** However often its tokens are traded, a sign-in has at most one session that is not revoked. */
  lemma OneLiveSessionPerSignIn(t: Table)
    requires Chained(t)
    ensures OneUnrevokedEach(t)
  {
    forall i | 0 <= i < |t.rows| && Traded(t, i) ensures t.rows[i].revoked {
      var j :| 0 <= j < |t.parents| && t.parents[j] == Some(i);
    }
    TradedOnceHasNoRivals(t);
  }

  // ---------- refreshes that overlap ----------

  /** A refresh: with its token, past the test of the row it found, or over. */
  datatype Refreshing = Asked(token: Id) | Seen(row: nat) | Over

  datatype State = State(t: Table, procs: map<Id, Refreshing>)

  datatype Action =
    | SignsIn(user: Id, token: Id, expiresAt: int)
    | Ask(p: Id, token: Id)
    | Look(p: Id, now: int)
    | Write(p: Id, active: bool, drawn: Id, expiresAt: int)
    | LogOut(token: Id)

  function RevokedAt(rows: seq<Login>, i: nat): seq<Login>
    requires i < |rows|
  {
    rows[i := rows[i].(revoked := true)]
  }

  predicate Enabled(s: State, a: Action) {
    match a
    case SignsIn(_, token, _) => Find(s.t.rows, token).None?
    case Ask(p, _) => p !in s.procs
    case Look(p, _) => p in s.procs && s.procs[p].Asked?
    case Write(p, _, drawn, _) => p in s.procs && s.procs[p].Seen? && s.procs[p].row < |s.t.rows| && Find(s.t.rows, drawn).None?
    case LogOut(_) => true
  }

  /** The row is read in one step and written in a later one; an inactive user's refresh is rolled back. */
  function Apply(s: State, a: Action): State
    requires Enabled(s, a)
  {
    match a
    case SignsIn(user, token, expiresAt) => s.(t := LoggedIn(s.t, user, token, expiresAt))
    case Ask(p, token) => s.(procs := s.procs[p := Asked(token)])
    case Look(p, now) =>
      var found := Find(s.t.rows, s.procs[p].token);
      if found.Some? && Usable(s.t.rows[found.value], now) then s.(procs := s.procs[p := Seen(found.value)])
      else s.(procs := s.procs[p := Over])
    case Write(p, active, drawn, expiresAt) =>
      State(if active then Rotated(s.t, s.procs[p].row, drawn, expiresAt) else s.t, s.procs[p := Over])
    case LogOut(token) =>
      var found := Find(s.t.rows, token);
      if found.Some? then s.(t := s.t.(rows := RevokedAt(s.t.rows, found.value))) else s
  }

  predicate ValidRun(s: State, run: seq<Action>)
    decreases |run|
  {
    run == [] || (Enabled(s, run[0]) && ValidRun(Apply(s, run[0]), run[1..]))
  }

  function After(s: State, run: seq<Action>): State
    requires ValidRun(s, run)
    decreases |run|
  {
    if run == [] then s else After(Apply(s, run[0]), run[1..])
  }

  /** What a refresh does to the table if nothing comes in between: row i is traded if it is usable and its user active. */
  predicate RefreshEnds(t: Table, t': Table, i: nat, now: int, active: bool, drawn: Id, expiresAt: int)
    requires i < |t.rows|
  {
    var row := t.rows[i];
    if !row.revoked && now <= row.expiresAt && active then
      && t'.rows == t.rows[i := row.(revoked := true)] + [Login(row.user, drawn, false, expiresAt)]
      && t'.parents == t.parents + [Some(i)]
    else t' == t
  }

  lemma FirstStep(s: State, a: Action, rest: seq<Action>)
    requires Enabled(s, a) && ValidRun(Apply(s, a), rest)
    ensures ValidRun(s, [a] + rest) && After(s, [a] + rest) == After(Apply(s, a), rest)
  {
    assert ([a] + rest)[1..] == rest;
  }

  /** Undisturbed, the three steps are `AuthService.Refresh`. */
  lemma RefreshAlone(s: State, p: Id, i: nat, now: int, active: bool, drawn: Id, expiresAt: int) returns (run: seq<Action>)
    requires p !in s.procs && i < |s.t.rows| && Find(s.t.rows, drawn).None?
    requires forall j :: 0 <= j < |s.t.rows| && j != i ==> s.t.rows[j].token != s.t.rows[i].token
    ensures ValidRun(s, run) && RefreshEnds(s.t, After(s, run).t, i, now, active, drawn, expiresAt)
    ensures After(s, run).procs == s.procs[p := Over]
  {
    var s1 := Apply(s, Ask(p, s.t.rows[i].token));
    var s2 := Apply(s1, Look(p, now));
    assert Find(s.t.rows, s.t.rows[i].token) == Some(i);
    var rest: seq<Action> := if s2.procs[p].Seen? then [Write(p, active, drawn, expiresAt)] else [];
    if s2.procs[p].Seen? {
      FirstStep(s2, rest[0], []);
      assert rest == [rest[0]] + [];
    }
    FirstStep(s1, Look(p, now), rest);
    FirstStep(s, Ask(p, s.t.rows[i].token), [Look(p, now)] + rest);
    run := [Ask(p, s.t.rows[i].token)] + ([Look(p, now)] + rest);
  }

  /** A sign-in and a logout are one step each and always possible. */
  lemma SignInAndOut(s: State, user: Id, token: Id, expiresAt: int)
    requires forall i :: 0 <= i < |s.t.rows| ==> s.t.rows[i].token != token
    ensures Enabled(s, SignsIn(user, token, expiresAt))
    ensures var s' := Apply(s, SignsIn(user, token, expiresAt));
      && s'.t.rows == s.t.rows + [Login(user, token, false, expiresAt)] && s'.procs == s.procs
      && Enabled(s', LogOut(token))
      && Apply(s', LogOut(token)).t.rows == s.t.rows + [Login(user, token, true, expiresAt)]
  {
    var s' := Apply(s, SignsIn(user, token, expiresAt));
    assert Find(s'.t.rows, token) == Some(|s.t.rows|);
  }

  const EMPTY: State := State(Table([], []), map[])

  predicate NoLogOut(run: seq<Action>) {
    forall i :: 0 <= i < |run| ==> !run[i].LogOut?
  }

  /** The test that the code makes when it reads, and not again when it writes. */
  predicate WritesUnrevoked(s: State, a: Action) {
    a.Write? && Enabled(s, a) && a.active ==> !s.t.rows[s.procs[a.p].row].revoked
  }

  predicate AllWriteUnrevoked(s: State, run: seq<Action>)
    requires ValidRun(s, run)
    decreases |run|
  {
    run == [] || (WritesUnrevoked(s, run[0]) && AllWriteUnrevoked(Apply(s, run[0]), run[1..]))
  }

  /** Without logouts a row is revoked exactly if its token was traded. */
  ghost predicate RevokedIffTraded(t: Table) {
    Older(t) && forall i :: 0 <= i < |t.rows| ==> (t.rows[i].revoked <==> Traded(t, i))
  }

  lemma LoggedInTraded(t: Table, user: Id, token: Id, expiresAt: int)
    requires RevokedIffTraded(t)
    ensures RevokedIffTraded(LoggedIn(t, user, token, expiresAt))
    ensures TradedOnce(LoggedIn(t, user, token, expiresAt)) <==> TradedOnce(t)
  {
    var t' := LoggedIn(t, user, token, expiresAt);
    forall i | 0 <= i < |t'.rows| ensures t'.rows[i].revoked <==> Traded(t', i) {
      StillTraded(t, t', i);
    }
    OnceStays(t, t');
  }

  /** One more row at the end keeps what was traded, and adds its own parent. */
  lemma StillTraded(t: Table, t': Table, i: nat)
    requires Older(t) && |t'.parents| == |t.parents| + 1 && t'.parents[..|t.parents|] == t.parents
    ensures Traded(t', i) <==> Traded(t, i) || t'.parents[|t.parents|] == Some(i)
  {
    if Traded(t, i) {
      var j :| 0 <= j < |t.parents| && t.parents[j] == Some(i);
      assert t'.parents[..|t.parents|][j] == t'.parents[j];
    }
    if Traded(t', i) {
      var j :| 0 <= j < |t'.parents| && t'.parents[j] == Some(i);
      assert j < |t.parents| ==> t'.parents[..|t.parents|][j] == t.parents[j];
    }
  }

  lemma OnceStays(t: Table, t': Table)
    requires Older(t) && |t'.parents| == |t.parents| + 1 && t'.parents[..|t.parents|] == t.parents
    ensures TradedOnce(t') <==> TradedOnce(t) && (t'.parents[|t.parents|].Some? ==> !Traded(t, t'.parents[|t.parents|].value))
  {
    var n := |t.parents|;
    assert forall i :: 0 <= i < n ==> t'.parents[i] == t'.parents[..n][i] == t.parents[i];
    if t'.parents[n].Some? && Traded(t, t'.parents[n].value) {
      var j :| 0 <= j < n && t.parents[j] == t'.parents[n];
      assert t'.parents[j] == t'.parents[n];
    }
  }

  lemma RotatedTraded(t: Table, i: nat, token: Id, expiresAt: int)
    requires RevokedIffTraded(t) && i < |t.rows|
    ensures RevokedIffTraded(Rotated(t, i, token, expiresAt))
    ensures TradedOnce(Rotated(t, i, token, expiresAt)) <==> TradedOnce(t) && !t.rows[i].revoked
  {
    var t' := Rotated(t, i, token, expiresAt);
    forall k | 0 <= k < |t'.rows| ensures t'.rows[k].revoked <==> Traded(t', k) {
      StillTraded(t, t', k);
    }
    OnceStays(t, t');
  }

  lemma StepDecides(s: State, a: Action)
    requires RevokedIffTraded(s.t) && Enabled(s, a) && !a.LogOut?
    ensures RevokedIffTraded(Apply(s, a).t)
    ensures TradedOnce(Apply(s, a).t) <==> TradedOnce(s.t) && WritesUnrevoked(s, a)
  {
    match a
    case SignsIn(user, token, expiresAt) => LoggedInTraded(s.t, user, token, expiresAt);
    case Write(p, active, drawn, expiresAt) =>
      if active {
        RotatedTraded(s.t, s.procs[p].row, drawn, expiresAt);
      }
    case _ =>
  }

  lemma {:induction false} RunDecides(s: State, run: seq<Action>)
    requires RevokedIffTraded(s.t) && ValidRun(s, run) && NoLogOut(run)
    ensures RevokedIffTraded(After(s, run).t)
    ensures TradedOnce(After(s, run).t) <==> TradedOnce(s.t) && AllWriteUnrevoked(s, run)
    decreases |run|
  {
    if run != [] {
      assert !run[0].LogOut?;
      StepDecides(s, run[0]);
      RunDecides(Apply(s, run[0]), run[1..]);
    }
  }

  // ---------- lines and forks ----------

  /** Session i is x or one that x goes back to. */
  predicate Before(t: Table, i: nat, x: nat)
    requires Older(t) && x < |t.parents|
    decreases x
  {
    i == x || (t.parents[x].Some? && Before(t, i, t.parents[x].value))
  }

  lemma {:induction false} BeforeIsOlder(t: Table, i: nat, x: nat)
    requires Older(t) && x < |t.parents| && Before(t, i, x)
    ensures i <= x && SignInOf(t, i) == SignInOf(t, x)
    decreases x
  {
    if i != x {
      BeforeIsOlder(t, i, t.parents[x].value);
    }
  }

  lemma {:induction false} BeforeIsLinear(t: Table, i: nat, j: nat, x: nat)
    requires Older(t) && x < |t.parents| && Before(t, i, x) && Before(t, j, x) && i <= j
    ensures j < |t.parents| && Before(t, i, j)
    decreases x
  {
    BeforeIsOlder(t, i, x);
    BeforeIsOlder(t, j, x);
    if x != j {
      BeforeIsOlder(t, j, t.parents[x].value);
      BeforeIsLinear(t, i, j, t.parents[x].value);
    }
  }

  lemma {:induction false} BeforeIsTransitive(t: Table, i: nat, j: nat, x: nat)
    requires Older(t) && j < |t.parents| && x < |t.parents| && Before(t, i, j) && Before(t, j, x)
    ensures Before(t, i, x)
    decreases x
  {
    if j != x {
      BeforeIsTransitive(t, i, j, t.parents[x].value);
    }
  }

  /** Every line ends with a session that is not revoked. */
  lemma {:induction false} TipOf(t: Table, i: nat) returns (tip: nat)
    requires RevokedIffTraded(t) && i < |t.rows|
    ensures tip < |t.rows| && Before(t, i, tip) && !t.rows[tip].revoked
    decreases |t.rows| - i
  {
    if t.rows[i].revoked {
      assert Traded(t, i);
      var j :| 0 <= j < |t.parents| && t.parents[j] == Some(i);
      tip := TipOf(t, j);
      BeforeIsTransitive(t, i, j, tip);
    } else {
      tip := i;
    }
  }

  /** Two trades of one token leave two unrevoked sessions of one sign-in. */
  lemma ForkLeavesTwo(t: Table, i: nat, j: nat)
    requires RevokedIffTraded(t) && i < j < |t.rows| && t.parents[i].Some? && t.parents[i] == t.parents[j]
    ensures !OneUnrevokedEach(t)
  {
    var x := TipOf(t, i);
    var y := TipOf(t, j);
    BeforeIsOlder(t, i, x);
    BeforeIsOlder(t, j, y);
    if x == y {
      BeforeIsLinear(t, i, j, x);
      BeforeIsOlder(t, i, t.parents[j].value);
    }
    assert Rivals(t, x, y);
  }

  lemma OneUnrevokedIffTradedOnce(t: Table)
    requires RevokedIffTraded(t)
    ensures OneUnrevokedEach(t) <==> TradedOnce(t)
  {
    if TradedOnce(t) {
      TradedOnceHasNoRivals(t);
    } else {
      var i, j :| 0 <= i < j < |t.parents| && t.parents[i].Some? && t.parents[i] == t.parents[j];
      ForkLeavesTwo(t, i, j);
    }
  }

  /**
   In every interleaving of sign-ins and refreshes, a sign-in has at most one session that is not revoked if and only
   if every refresh writes while the row that it read is still unrevoked: no two that read one row both write.
   */
  lemma OneSessionIffNoRace(run: seq<Action>)
    requires ValidRun(EMPTY, run) && NoLogOut(run)
    ensures Older(After(EMPTY, run).t)
    ensures OneUnrevokedEach(After(EMPTY, run).t) <==> AllWriteUnrevoked(EMPTY, run)
  {
    RunDecides(EMPTY, run);
    OneUnrevokedIffTradedOnce(After(EMPTY, run).t);
  }

  // ---------- logging out ----------

  /** Rows that processes have seen are there. */
  predicate SeenAreRows(s: State) {
    forall p :: p in s.procs && s.procs[p].Seen? ==> s.procs[p].row < |s.t.rows|
  }

  predicate LoggedOut(t: Table, g: nat)
    requires Older(t)
  {
    forall i :: 0 <= i < |t.rows| && SignInOf(t, i) == g ==> t.rows[i].revoked
  }

  predicate NoneInFlight(s: State, g: nat)
    requires Older(s.t) && SeenAreRows(s)
  {
    forall p :: p in s.procs && s.procs[p].Seen? ==> SignInOf(s.t, s.procs[p].row) != g
  }

  lemma {:induction false} SignInStays(t: Table, t': Table, i: nat)
    requires Older(t) && Older(t') && i < |t.parents| <= |t'.parents| && t'.parents[..|t.parents|] == t.parents
    ensures SignInOf(t', i) == SignInOf(t, i)
    decreases i
  {
    assert t'.parents[i] == t'.parents[..|t.parents|][i];
    if t.parents[i].Some? {
      SignInStays(t, t', t.parents[i].value);
    }
  }

  lemma RowsOnlyGrow(s: State, a: Action)
    requires Older(s.t) && SeenAreRows(s) && Enabled(s, a)
    ensures var s' := Apply(s, a);
      && Older(s'.t) && SeenAreRows(s') && |s.t.rows| <= |s'.t.rows| && s'.t.parents[..|s.t.parents|] == s.t.parents
      && forall i :: 0 <= i < |s.t.rows| && s.t.rows[i].revoked ==> s'.t.rows[i].revoked
  {}

  lemma StepKeepsLoggedOut(s: State, a: Action, g: nat)
    requires Older(s.t) && SeenAreRows(s) && g < |s.t.rows| && Enabled(s, a)
    requires LoggedOut(s.t, g) && NoneInFlight(s, g)
    ensures var s' := Apply(s, a);
      Older(s'.t) && SeenAreRows(s') && g < |s'.t.rows| && LoggedOut(s'.t, g) && NoneInFlight(s', g)
  {
    RowsOnlyGrow(s, a);
    var s' := Apply(s, a);
    forall i | 0 <= i < |s'.t.rows| && SignInOf(s'.t, i) == g ensures s'.t.rows[i].revoked {
      if i < |s.t.rows| {
        SignInStays(s.t, s'.t, i);
      } else if a.Write? {
        SignInStays(s.t, s'.t, s.procs[a.p].row);
      }
    }
    forall p | p in s'.procs && s'.procs[p].Seen? ensures SignInOf(s'.t, s'.procs[p].row) != g {
      SignInStays(s.t, s'.t, s'.procs[p].row);
    }
  }

  lemma {:induction false} RunKeepsLoggedOut(s: State, run: seq<Action>, g: nat)
    requires Older(s.t) && SeenAreRows(s) && g < |s.t.rows| && ValidRun(s, run)
    requires LoggedOut(s.t, g) && NoneInFlight(s, g)
    ensures Older(After(s, run).t) && LoggedOut(After(s, run).t, g)
    decreases |run|
  {
    if run != [] {
      StepKeepsLoggedOut(s, run[0], g);
      RunKeepsLoggedOut(Apply(s, run[0]), run[1..], g);
    }
  }

  lemma {:induction false} FreshToken(rows: seq<Login>) returns (token: Id)
    ensures forall i :: 0 <= i < |rows| ==> rows[i].token < token
    ensures Find(rows, token).None?
  {
    token := 0;
    if rows != [] {
      var front, last := rows[..|rows| - 1], rows[|rows| - 1].token;
      var t := FreshToken(front);
      token := if last < t then t else last + 1;
      forall i | 0 <= i < |rows| ensures rows[i].token < token {
        assert i < |front| ==> front[i] == rows[i];
      }
    }
  }

  /** A refresh that read a session before its logout brings the sign-in back. */
  lemma InFlightComesBack(s: State, p: Id, g: nat) returns (run: seq<Action>)
    requires Older(s.t) && SeenAreRows(s) && p in s.procs && s.procs[p].Seen? && SignInOf(s.t, s.procs[p].row) == g
    ensures ValidRun(s, run) && Older(After(s, run).t) && !LoggedOut(After(s, run).t, g)
  {
    var token := FreshToken(s.t.rows);
    var a := Write(p, true, token, 0);
    run := [a];
    RowsOnlyGrow(s, a);
    var s' := Apply(s, a);
    assert run[1..] == [] && After(s, run) == s';
    var n := |s.t.rows|;
    SignInStays(s.t, s'.t, s.procs[p].row);
    assert s'.t.parents[n] == Some(s.procs[p].row) && SignInOf(s'.t, n) == g && !s'.t.rows[n].revoked;
  }

  /** A sign-in whose sessions are all revoked stays logged out if and only if no refresh in flight has read one of them. */
  lemma LogOutIsFinalIff(s: State, g: nat)
    requires Older(s.t) && SeenAreRows(s) && g < |s.t.rows| && LoggedOut(s.t, g)
    ensures NoneInFlight(s, g) <==> forall run :: ValidRun(s, run) ==> Older(After(s, run).t) && LoggedOut(After(s, run).t, g)
  {
    if NoneInFlight(s, g) {
      forall run | ValidRun(s, run) ensures Older(After(s, run).t) && LoggedOut(After(s, run).t, g) {
        RunKeepsLoggedOut(s, run, g);
      }
    } else {
      var p :| p in s.procs && s.procs[p].Seen? && SignInOf(s.t, s.procs[p].row) == g;
      var run := InFlightComesBack(s, p, g);
    }
  }
}

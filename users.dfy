/**
 * `CustomUser.save` (usuarios/models.py): a user saved with an empty username gets one derived
 * from the email, made unique by a numeric suffix, before the row is written; the post-save
 * profile handlers then run on the written row.
 */
module Users {
  import opened Wrappers
  import opened Domain
  import opened Text
  import opened Sets
  import Tables
  import Store
  import Signals

  /** The usernames held by the rows of the user table. */
  function Usernames(users: map<Id, User>): (names: set<string>)
    ensures forall v :: v in users ==> users[v].username in names
    ensures forall n :: n in names ==> exists v :: v in users && users[v].username == n
  {
    set v | v in users :: users[v].username
  }

  /** `email.split("@")[0]`. */
  function LocalPart(email: string): (base: string)
    ensures base <= email && '@' !in base
  {
    Before(email, '@')
  }

  /** The k-th name the loop tries: the base itself, then base + "1", base + "2", ... */
  function Candidate(base: string, k: nat): string {
    if k == 0 then base else base + NatToString(k)
  }

  /** The loop never tries the same name twice. */
  lemma CandidateInjective(base: string, i: nat, j: nat)
    requires Candidate(base, i) == Candidate(base, j)
    ensures i == j
  {
    if i > 0 && j > 0 {
      var a, b := Candidate(base, i), Candidate(base, j);
      assert a[|base|..] == NatToString(i);
      assert b[|base|..] == NatToString(j);
      NatToStringInjective(i, j);
    }
  }

  /** Candidate k is free, and every earlier candidate is held. */
  predicate FirstFree(taken: set<string>, base: string, k: nat) {
    Candidate(base, k) !in taken && forall j :: 0 <= j < k ==> Candidate(base, j) in taken
  }

  /** The first n candidates are n different names. */
  lemma {:induction false} CandidateSetSize(base: string, n: nat)
    ensures |set j | 0 <= j < n :: Candidate(base, j)| == n
  {
    if n > 0 {
      var s := set j | 0 <= j < n - 1 :: Candidate(base, j);
      CandidateSetSize(base, n - 1);
      assert (set j | 0 <= j < n :: Candidate(base, j)) == s + {Candidate(base, n - 1)};
      if Candidate(base, n - 1) in s {
        var j :| 0 <= j < n - 1 && Candidate(base, j) == Candidate(base, n - 1);
        CandidateInjective(base, j, n - 1);
        assert false;
      }
    }
  }

  /** Hence the loop can find at most |taken| held candidates in a row. */
  lemma HeldCandidatesBound(taken: set<string>, base: string, n: nat)
    requires forall j :: 0 <= j < n ==> Candidate(base, j) in taken
    ensures n <= |taken|
  {
    CandidateSetSize(base, n);
    var s := set j | 0 <= j < n :: Candidate(base, j);
    forall x | x in s ensures x in taken {
      var j :| 0 <= j < n && x == Candidate(base, j);
    }
    SubsetSize(s, taken);
  }

  /**
   * The `while ... exists()` loop: starting from the base, try suffixes 1, 2, ... until no row
   * holds the name. It stops after at most |taken| + 1 tries.
   */
  method FreeUsername(taken: set<string>, base: string) returns (name: string)
    ensures name !in taken
    ensures base !in taken ==> name == base
    ensures exists k :: FirstFree(taken, base, k) && name == Candidate(base, k)
  {
    name := base;
    var counter := 1;
    while name in taken
      invariant 1 <= counter <= |taken| + 1
      invariant name == Candidate(base, counter - 1)
      invariant forall j :: 0 <= j < counter - 1 ==> Candidate(base, j) in taken
      decreases |taken| + 1 - counter
    {
      HeldCandidatesBound(taken, base, counter);
      name := base + NatToString(counter);
      counter := counter + 1;
    }
    assert FirstFree(taken, base, counter - 1);
  }

  /** The `if not self.username` block: a given username is kept, an empty one is derived. */
  method FillUsername(users: map<Id, User>, u: User) returns (filled: User)
    ensures u.username != "" ==> filled == u
    ensures u.username == "" ==>
      && filled == u.(username := filled.username)
      && filled.username !in Usernames(users)
      && exists k :: FirstFree(Usernames(users), LocalPart(u.email), k)
           && filled.username == Candidate(LocalPart(u.email), k)
  {
    filled := u;
    if u.username == "" {
      var name := FreeUsername(Usernames(users), LocalPart(u.email));
      filled := u.(username := name);
    }
  }

  /**
   * A derived username is held by no row before the write, so the write cannot clash on it; only
   * the email can make the INSERT fail.
   */
  lemma DerivedNameNeverClashes(db: Db, u: User, filled: User)
    requires u.username == "" && filled == u.(username := filled.username)
    requires filled.username !in Usernames(db.users)
    ensures Tables.UserKeysFree(db, filled, None) <==> forall v :: v in db.users ==> db.users[v].email != u.email
  {
  }

  /**
   * Registering a new user: `save()` INSERTs the row, then the post-save handlers run with
   * `created=True`. A handler that raises leaves the written row in place.
   */
  function Register(db: Db, filled: User): (r: (Db, Result<Id, Tables.DbError>))
  {
    var (d, ins) := Tables.InsertUser(db, filled);
    if ins.Err? then (d, ins)
    else
      var (e, out) := Signals.PostSave(d, ins.value, true);
      (e, if out.Fail? then Err(out.error) else ins)
  }

  /** A registered user is written with its username, and its profile follows its role. */
  lemma RegisterGivesProfile(db: Db, filled: User)
    requires KeysBounded(db) && db.alunos.Keys <= db.users.Keys && db.personais.Keys <= db.users.Keys
    ensures var (r, res) := Register(db, filled);
      res.Ok? ==>
        res.value !in db.users && res.value in r.users && r.users[res.value] == filled && RoleMatches(r, res.value)
  {
    var (d, ins) := Tables.InsertUser(db, filled);
    if ins.Ok? {
      Signals.PostSaveMatchesRole(d, ins.value, true);
      Signals.PostSaveTouchesOnlyUser(d, ins.value, true);
    }
  }

  /** A registered user's row is the one given, and an ALUNO or a PERSONAL also has its profile. */
  lemma RegisterWritesRow(db: Db, u: User)
    ensures var (r, res) := Register(db, u);
      res.Ok? ==>
        && res.value in r.users && r.users[res.value] == u
        && (u.userType == Aluno ==> res.value in r.alunos)
        && (u.userType == Personal ==> res.value in r.personais)
  {
    var (d, ins) := Tables.InsertUser(db, u);
    if ins.Ok? {
      Signals.PostSaveTouchesOnlyUser(d, ins.value, true);
    }
  }

  /** Registering keeps the database constraints. */
  lemma RegisterKeepsValid(db: Db, filled: User)
    requires Valid(db) && Tables.UserRefsOk(db, filled)
    ensures Valid(Register(db, filled).0)
  {
    Tables.InsertUserKeepsValid(db, filled);
    var (d, ins) := Tables.InsertUser(db, filled);
    if ins.Ok? {
      Signals.PostSaveKeepsValid(d, ins.value, true);
    }
  }

  /** Saving an existing row: UPDATE, then the post-save handlers with `created=False`. */
  function Resave(db: Db, id: Id, filled: User): (r: (Db, Outcome<Tables.DbError>))
    requires id in db.users
  {
    var (d, upd) := Tables.UpdateUser(db, id, filled);
    if upd.Fail? then (d, upd) else Signals.PostSave(d, id, false)
  }

  /** After a successful re-save the row holds the saved values and its profiles follow the new role. */
  lemma ResaveFollowsRole(db: Db, id: Id, filled: User)
    requires id in db.users
    ensures var (r, out) := Resave(db, id, filled);
      out.Pass? ==> id in r.users && r.users[id] == filled && RoleMatches(r, id)
  {
    var (d, upd) := Tables.UpdateUser(db, id, filled);
    if upd.Pass? {
      Signals.PostSaveMatchesRole(d, id, false);
      Signals.PostSaveTouchesOnlyUser(d, id, false);
    }
  }

  lemma ResaveKeepsValid(db: Db, id: Id, filled: User)
    requires Valid(db) && id in db.users && Tables.UserRefsOk(db, filled)
    ensures Valid(Resave(db, id, filled).0)
  {
    Tables.UpdateUserKeepsValid(db, id, filled);
    var (d, upd) := Tables.UpdateUser(db, id, filled);
    if upd.Pass? {
      Signals.PostSaveKeepsValid(d, id, false);
    }
  }

  /** `CustomUser(...).save()` for a new user, followed by `criar_perfil_usuario`. */
  method SaveNew(db: Store.Database, u: User) returns (filled: User, r: Result<Id, Tables.DbError>)
    modifies db
    ensures u.username != "" ==> filled == u
    ensures u.username == "" ==>
      && filled == u.(username := filled.username)
      && exists k :: FirstFree(Usernames(old(db.users)), LocalPart(u.email), k)
           && filled.username == Candidate(LocalPart(u.email), k)
    ensures (db.Snapshot(), r) == Register(old(db.Snapshot()), filled)
  {
    filled := FillUsername(db.users, u);
    r := db.InsertUser(filled);
    if r.Ok? {
      var out := Signals.OnPostSave(db, r.value, true);
      if out.Fail? {
        r := Err(out.error);
      }
    }
  }

  /** `user.save()` on an existing row, followed by `atualizar_perfil_usuario`. */
  method SaveExisting(db: Store.Database, id: Id, u: User) returns (filled: User, out: Outcome<Tables.DbError>)
    requires id in db.users
    modifies db
    ensures u.username != "" ==> filled == u
    ensures u.username == "" ==>
      && filled == u.(username := filled.username)
      && exists k :: FirstFree(Usernames(old(db.users)), LocalPart(u.email), k)
           && filled.username == Candidate(LocalPart(u.email), k)
    ensures (db.Snapshot(), out) == Resave(old(db.Snapshot()), id, filled)
  {
    filled := FillUsername(db.users, u);
    out := db.UpdateUser(id, filled);
    if out.Pass? {
      out := Signals.OnPostSave(db, id, false);
    }
  }
}

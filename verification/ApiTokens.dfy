/** API tokens: inserting a token with its projects, and rebuilding tokens from joined rows. */
module ApiTokens {
  import opened Tables

  const ALL := "*"

  /** The part of a token that is stored as it is. */
  datatype TokenData = TokenData(username: string, kind: string, expiresAt: Option<int>)

  datatype TokenCreate = TokenCreate(
    secret: string,
    data: TokenData,
    alias: Option<string>,
    environment: string,
    projects: Option<seq<string>>)

  datatype TokenRow = TokenRow(data: TokenData, alias: Option<string>, environment: Option<string>)

  datatype Token = Token(
    data: TokenData,
    alias: Option<string>,
    environment: string,
    projects: seq<string>)

  /** One row of api_tokens left-joined with api_token_project. */
  datatype JoinRow = JoinRow(secret: string, row: TokenRow, project: Option<string>)

  /** The two tables; the link table has no key, so it is a list. */
  datatype TokenTables = TokenTables(tokens: map<string, TokenRow>, links: seq<(string, string)>)

  /** The wildcard environment is stored as null, an empty alias as null. */
  function ToRow(t: TokenCreate): TokenRow {
    TokenRow(t.data, if t.alias == Some("") then None else t.alias,
             if t.environment == ALL then None else Some(t.environment))
  }

  function Scoped(projects: seq<string>): seq<string> {
    if projects == [] then []
    else
      var last := projects[|projects| - 1];
      if last != ALL then Scoped(projects[..|projects| - 1]) + [last] else Scoped(projects[..|projects| - 1])
  }

  function LinksFor(secret: string, projects: seq<string>): seq<(string, string)> {
    seq(|projects|, i requires 0 <= i < |projects| => (secret, projects[i]))
  }

  function ProjectsOf(t: TokenCreate): seq<string> {
    if t.projects.Some? then t.projects.value else []
  }

  /** One transaction: a secret in use or an unknown project undoes it. */
  function InsertToken(db: TokenTables, known: set<string>, t: TokenCreate): (TokenTables, Outcome) {
    var projects := Scoped(ProjectsOf(t));
    if t.secret in db.tokens then (db, Failed(UniqueViolation))
    else if exists p :: p in projects && p !in known then (db, Failed(ForeignKeyViolation))
    else (TokenTables(db.tokens[t.secret := ToRow(t)], db.links + LinksFor(t.secret, projects)), Done)
  }

  predicate IsAllProjects(projects: seq<string>) {
    |projects| == 1 && projects[0] == ALL
  }

  /** One step of the reduction: a new token starts with all projects, and a linked project replaces
      them or joins those found so far. */
  function AddRow(acc: map<string, Token>, r: JoinRow): map<string, Token> {
    var token := if r.secret in acc then acc[r.secret]
                 else Token(r.row.data, r.row.alias,
                            if r.row.environment.Some? && r.row.environment.value != "" then r.row.environment.value else ALL,
                            [ALL]);
    acc[r.secret := if r.project.Some? && r.project.value != ""
                    then token.(projects := (if IsAllProjects(token.projects) then [] else token.projects) + [r.project.value])
                    else token]
  }

  function Fold(rows: seq<JoinRow>): map<string, Token> {
    if rows == [] then map[] else AddRow(Fold(rows[..|rows| - 1]), rows[|rows| - 1])
  }

  class ApiTokenStore {
    var tokens: map<string, TokenRow>
    var links: seq<(string, string)>

    constructor ()
      ensures State() == TokenTables(map[], [])
    {
      tokens, links := map[], [];
    }

    function State(): TokenTables
      reads this
    {
      TokenTables(tokens, links)
    }

    method Insert(known: set<string>, t: TokenCreate) returns (o: Outcome)
      modifies this
      ensures (State(), o) == InsertToken(old(State()), known, t)
    {
      if t.secret in tokens {
        return Failed(UniqueViolation);
      }
      var projects := if t.projects.Some? then t.projects.value else [];
      var scoped := [];
      for i := 0 to |projects|
        invariant scoped == Scoped(projects[..i])
      {
        assert projects[..i + 1][..i] == projects[..i];
        if projects[i] != ALL {
          scoped := scoped + [projects[i]];
        }
      }
      assert projects[..|projects|] == projects;
      if exists p :: p in scoped && p !in known {
        return Failed(ForeignKeyViolation);
      }
      tokens := tokens[t.secret := ToRow(t)];
      for i := 0 to |scoped|
        invariant tokens == old(tokens)[t.secret := ToRow(t)]
        invariant links == old(links) + LinksFor(t.secret, scoped)[..i]
      {
        links := links + [(t.secret, scoped[i])];
      }
      assert LinksFor(t.secret, scoped)[..|scoped|] == LinksFor(t.secret, scoped);
      return Done;
    }
  }

  method ToTokens(rows: seq<JoinRow>) returns (acc: map<string, Token>)
    ensures acc == Fold(rows)
  {
    acc := map[];
    for i := 0 to |rows|
      invariant acc == Fold(rows[..i])
    {
      assert rows[..i + 1][..i] == rows[..i];
      var r := rows[i];
      if r.secret !in acc {
        var environment := if r.row.environment.Some? && r.row.environment.value != "" then r.row.environment.value else ALL;
        acc := acc[r.secret := Token(r.row.data, r.row.alias, environment, [ALL])];
      }
      var token := acc[r.secret];
      if r.project.Some? && r.project.value != "" {
        if IsAllProjects(token.projects) {
          token := token.(projects := []);
        }
        token := token.(projects := token.projects + [r.project.value]);
        acc := acc[r.secret := token];
      }
    }
    assert rows[..|rows|] == rows;
  }

  // ---------- What the fold computes ----------

  /** The projects the rows link to a secret, in row order. */
  function RowProjects(rows: seq<JoinRow>, secret: string): seq<string> {
    if rows == [] then []
    else
      var r := rows[|rows| - 1];
      var before := RowProjects(rows[..|rows| - 1], secret);
      if r.secret == secret && r.project.Some? && r.project.value != "" then before + [r.project.value] else before
  }

  /** No link names the wildcard, and equal secrets come with equal columns. */
  ghost predicate Consistent(rows: seq<JoinRow>) {
    && (forall a, b | a in rows && b in rows && a.secret == b.secret :: a.row == b.row)
    && (forall r | r in rows :: r.project != Some(ALL))
  }

  lemma {:induction false} NoWildcard(rows: seq<JoinRow>, secret: string)
    requires Consistent(rows)
    ensures forall i | 0 <= i < |RowProjects(rows, secret)| :: RowProjects(rows, secret)[i] != ALL
  {
    if rows != [] {
      NoWildcard(rows[..|rows| - 1], secret);
    }
  }

  /** The token of a row and the projects linked to it. */
  function TokenOf(row: TokenRow, projects: seq<string>): Token {
    Token(row.data, row.alias,
          if row.environment.Some? && row.environment.value != "" then row.environment.value else ALL,
          if projects == [] then [ALL] else projects)
  }

  /** One more row adds its project to those of its secret. */
  lemma AddRowMeans(acc: map<string, Token>, r: JoinRow, projects: seq<string>)
    requires if r.secret in acc then acc[r.secret] == TokenOf(r.row, projects) else projects == []
    requires r.project != Some(ALL) && forall i | 0 <= i < |projects| :: projects[i] != ALL
    ensures AddRow(acc, r) ==
            acc[r.secret := TokenOf(r.row, if r.project.Some? && r.project.value != "" then projects + [r.project.value]
                                           else projects)]
  {
  }

  ghost predicate Occurs(rows: seq<JoinRow>, secret: string) {
    exists r :: r in rows && r.secret == secret
  }

  /** Each secret of the rows once, with its columns and its linked projects, or the wildcard if it has
      none. */
  lemma {:induction false} FoldMeans(rows: seq<JoinRow>, secret: string)
    requires Consistent(rows)
    ensures secret in Fold(rows) <==> Occurs(rows, secret)
    ensures forall r <- rows | r.secret == secret :: Fold(rows)[secret] == TokenOf(r.row, RowProjects(rows, secret))
  {
    if rows != [] {
      var front, r := rows[..|rows| - 1], rows[|rows| - 1];
      FoldMeans(front, secret);
      if r.secret == secret {
        NoWildcard(front, secret);
        if !Occurs(front, secret) {
          NoRowsNoProjects(front, secret);
        }
      }
    }
  }

  lemma {:induction false} NoRowsNoProjects(rows: seq<JoinRow>, secret: string)
    requires !Occurs(rows, secret)
    ensures RowProjects(rows, secret) == []
  {
    if rows != [] {
      NoRowsNoProjects(rows[..|rows| - 1], secret);
    }
  }

  // ---------- The round trip ----------

  function LinkedProjects(links: seq<(string, string)>, secret: string): seq<string> {
    if links == [] then []
    else
      var last := links[|links| - 1];
      var before := LinkedProjects(links[..|links| - 1], secret);
      if last.0 == secret then before + [last.1] else before
  }

  ghost predicate LinksKnown(db: TokenTables) {
    forall i | 0 <= i < |db.links| :: db.links[i].0 in db.tokens && db.links[i].1 != ALL && db.links[i].1 != ""
  }

  /** The left join: a row per link, and a row without a project per token without links. */
  function LinkRows(db: TokenTables): seq<JoinRow>
    requires LinksKnown(db)
  {
    seq(|db.links|, i requires 0 <= i < |db.links| =>
      JoinRow(db.links[i].0, db.tokens[db.links[i].0], Some(db.links[i].1)))
  }

  function UnlinkedRows(db: TokenTables): set<JoinRow> {
    set k | k in db.tokens && LinkedProjects(db.links, k) == [] :: JoinRow(k, db.tokens[k], None)
  }

  /** The rows of the query in any order. */
  ghost predicate IsJoin(db: TokenTables, rows: seq<JoinRow>) {
    LinksKnown(db) && multiset(rows) == multiset(LinkRows(db)) + multiset(UnlinkedRows(db))
  }

  lemma JoinRowIsKnown(db: TokenTables, rows: seq<JoinRow>, r: JoinRow)
    requires IsJoin(db, rows)
    ensures r in rows <==> r in LinkRows(db) || r in UnlinkedRows(db)
  {
    assert r in rows <==> r in multiset(rows);
  }

  lemma JoinIsConsistent(db: TokenTables, rows: seq<JoinRow>)
    requires IsJoin(db, rows)
    ensures Consistent(rows)
    ensures forall r | r in rows :: r.secret in db.tokens && r.row == db.tokens[r.secret]
  {
    forall r | r in rows
      ensures r.secret in db.tokens && r.row == db.tokens[r.secret] && r.project != Some(ALL)
    {
      JoinRowIsKnown(db, rows, r);
    }
  }

  lemma {:induction false} RowProjectCount(rows: seq<JoinRow>, secret: string, row: TokenRow, p: string)
    requires p != "" && forall r | r in rows && r.secret == secret :: r.row == row
    ensures multiset(RowProjects(rows, secret))[p] == multiset(rows)[JoinRow(secret, row, Some(p))]
  {
    if rows != [] {
      assert rows == rows[..|rows| - 1] + [rows[|rows| - 1]];
      RowProjectCount(rows[..|rows| - 1], secret, row, p);
    }
  }

  lemma LinkRowsOneMore(db: TokenTables)
    requires LinksKnown(db) && db.links != []
    ensures var front, last := db.(links := db.links[..|db.links| - 1]), db.links[|db.links| - 1];
            && LinksKnown(front)
            && multiset(LinkRows(db)) ==
               multiset(LinkRows(front)) + multiset{JoinRow(last.0, db.tokens[last.0], Some(last.1))}
  {
    var front, last := db.(links := db.links[..|db.links| - 1]), db.links[|db.links| - 1];
    assert LinkRows(db) == LinkRows(front) + [JoinRow(last.0, db.tokens[last.0], Some(last.1))];
  }

  lemma {:induction false} LinkRowCount(db: TokenTables, secret: string, p: string)
    requires LinksKnown(db) && secret in db.tokens
    ensures multiset(LinkRows(db))[JoinRow(secret, db.tokens[secret], Some(p))] ==
            multiset(LinkedProjects(db.links, secret))[p]
    decreases |db.links|
  {
    if db.links != [] {
      var front := db.(links := db.links[..|db.links| - 1]);
      LinkRowCount(front, secret, p);
      var last := db.links[|db.links| - 1];
      LinkRowsOneMore(db);
      assert JoinRow(last.0, db.tokens[last.0], Some(last.1)) == JoinRow(secret, db.tokens[secret], Some(p)) <==>
             last == (secret, p);
    }
  }

  lemma {:induction false} LinkedAreNotEmpty(links: seq<(string, string)>, secret: string)
    requires forall i | 0 <= i < |links| :: links[i].1 != ""
    ensures "" !in LinkedProjects(links, secret)
  {
    if links != [] {
      LinkedAreNotEmpty(links[..|links| - 1], secret);
    }
  }

  lemma {:induction false} RowProjectsAreNotEmpty(rows: seq<JoinRow>, secret: string)
    ensures "" !in RowProjects(rows, secret)
  {
    if rows != [] {
      RowProjectsAreNotEmpty(rows[..|rows| - 1], secret);
    }
  }

  /** The rows give every secret its links, in some order. */
  lemma RowProjectsAreLinks(db: TokenTables, rows: seq<JoinRow>, secret: string)
    requires IsJoin(db, rows) && secret in db.tokens
    ensures multiset(RowProjects(rows, secret)) == multiset(LinkedProjects(db.links, secret))
  {
    JoinIsConsistent(db, rows);
    LinkedAreNotEmpty(db.links, secret);
    RowProjectsAreNotEmpty(rows, secret);
    forall p
      ensures multiset(RowProjects(rows, secret))[p] == multiset(LinkedProjects(db.links, secret))[p]
    {
      if p != "" {
        RowProjectCount(rows, secret, db.tokens[secret], p);
        LinkRowCount(db, secret, p);
      }
    }
  }

  lemma TokenHasRow(db: TokenTables, rows: seq<JoinRow>, secret: string)
    requires IsJoin(db, rows) && secret in db.tokens
    ensures exists r :: r in rows && r.secret == secret
  {
    if LinkedProjects(db.links, secret) == [] {
      var r := JoinRow(secret, db.tokens[secret], None);
      JoinRowIsKnown(db, rows, r);
    } else {
      var i := LinkOf(db.links, secret);
      var r := LinkRows(db)[i];
      JoinRowIsKnown(db, rows, r);
    }
  }

  lemma {:induction false} LinkOf(links: seq<(string, string)>, secret: string) returns (i: nat)
    requires LinkedProjects(links, secret) != []
    ensures i < |links| && links[i].0 == secret
  {
    if links[|links| - 1].0 == secret {
      i := |links| - 1;
    } else {
      i := LinkOf(links[..|links| - 1], secret);
    }
  }

  /** The token as it was created: its data, its environment, and its projects other than the wildcard,
      or just the wildcard if there are none. */
  ghost predicate SameToken(t: TokenCreate, token: Token) {
    var scoped := Scoped(ProjectsOf(t));
    && token.data == t.data
    && token.alias == (if t.alias == Some("") then None else t.alias)
    && (token.environment == t.environment <==> t.environment != "")
    && (t.environment == "" ==> token.environment == ALL)
    && (if scoped == [] then token.projects == [ALL] else multiset(token.projects) == multiset(scoped))
  }

  function InsertAll(db: TokenTables, known: set<string>, ts: seq<TokenCreate>): TokenTables {
    if ts == [] then db else InsertToken(InsertAll(db, known, ts[..|ts| - 1]), known, ts[|ts| - 1]).0
  }

  ghost predicate SecretsDistinct(ts: seq<TokenCreate>) {
    forall i, j | 0 <= i < j < |ts| :: ts[i].secret != ts[j].secret
  }

  ghost predicate ProjectsKnown(known: set<string>, ts: seq<TokenCreate>) {
    "" !in known && forall i | 0 <= i < |ts| :: forall p <- Scoped(ProjectsOf(ts[i])) :: p in known
  }

  lemma {:induction false} ScopedHasNoWildcard(projects: seq<string>)
    ensures ALL !in Scoped(projects)
  {
    if projects != [] {
      ScopedHasNoWildcard(projects[..|projects| - 1]);
    }
  }

  lemma {:induction false} LinkedConcat(a: seq<(string, string)>, b: seq<(string, string)>, secret: string)
    ensures LinkedProjects(a + b, secret) == LinkedProjects(a, secret) + LinkedProjects(b, secret)
  {
    if b == [] {
      assert a + b == a;
    } else {
      assert (a + b)[..|a + b| - 1] == a + b[..|b| - 1];
      LinkedConcat(a, b[..|b| - 1], secret);
    }
  }

  lemma {:induction false} LinkedOfOne(secret: string, projects: seq<string>, other: string)
    ensures LinkedProjects(LinksFor(secret, projects), other) == if other == secret then projects else []
  {
    if projects != [] {
      var front := projects[..|projects| - 1];
      LinkedOfOne(secret, front, other);
      assert LinksFor(secret, projects)[..|projects| - 1] == LinksFor(secret, front);
    }
  }

  ghost function Secrets(ts: seq<TokenCreate>): set<string> {
    set t | t in ts :: t.secret
  }

  /** The token's row and its scoped projects as links. */
  ghost predicate Stored(db: TokenTables, t: TokenCreate) {
    && t.secret in db.tokens
    && db.tokens[t.secret] == ToRow(t)
    && LinkedProjects(db.links, t.secret) == Scoped(ProjectsOf(t))
  }

  /** The tables hold exactly these tokens. */
  ghost predicate Stores(db: TokenTables, ts: seq<TokenCreate>) {
    && LinksKnown(db)
    && db.tokens.Keys == Secrets(ts)
    && (forall k | k !in db.tokens :: LinkedProjects(db.links, k) == [])
    && forall t <- ts :: Stored(db, t)
  }

  lemma InsertLinks(db: TokenTables, known: set<string>, t: TokenCreate)
    requires LinksKnown(db) && t.secret !in db.tokens && "" !in known
    requires forall p <- Scoped(ProjectsOf(t)) :: p in known
    ensures var r := InsertToken(db, known, t).0;
            && LinksKnown(r) && r.tokens == db.tokens[t.secret := ToRow(t)]
            && forall k :: LinkedProjects(r.links, k) ==
                           LinkedProjects(db.links, k) + if k == t.secret then Scoped(ProjectsOf(t)) else []
  {
    var projects := Scoped(ProjectsOf(t));
    ScopedHasNoWildcard(ProjectsOf(t));
    forall k
      ensures LinkedProjects(db.links + LinksFor(t.secret, projects), k) ==
              LinkedProjects(db.links, k) + if k == t.secret then projects else []
    {
      LinkedConcat(db.links, LinksFor(t.secret, projects), k);
      LinkedOfOne(t.secret, projects, k);
    }
  }

  lemma InsertStored(db: TokenTables, known: set<string>, t: TokenCreate, other: TokenCreate)
    requires LinksKnown(db) && t.secret !in db.tokens && "" !in known
    requires LinkedProjects(db.links, t.secret) == []
    requires forall p <- Scoped(ProjectsOf(t)) :: p in known
    requires other == t || (other.secret != t.secret && Stored(db, other))
    ensures Stored(InsertToken(db, known, t).0, other)
  {
    InsertLinks(db, known, t);
    var r := InsertToken(db, known, t).0;
    assert LinkedProjects(r.links, other.secret) ==
           LinkedProjects(db.links, other.secret) + if other.secret == t.secret then Scoped(ProjectsOf(t)) else [];
  }

  lemma InsertStores(db: TokenTables, known: set<string>, ts: seq<TokenCreate>, t: TokenCreate)
    requires Stores(db, ts) && t.secret !in Secrets(ts) && "" !in known
    requires forall p <- Scoped(ProjectsOf(t)) :: p in known
    ensures Stores(InsertToken(db, known, t).0, ts + [t])
  {
    var r := InsertToken(db, known, t).0;
    InsertLinks(db, known, t);
    InsertStoresAll(db, known, ts, t);
    forall k | k !in r.tokens
      ensures LinkedProjects(r.links, k) == []
    {
    }
  }

  lemma InsertStoresAll(db: TokenTables, known: set<string>, ts: seq<TokenCreate>, t: TokenCreate)
    requires Stores(db, ts) && t.secret !in Secrets(ts) && "" !in known
    requires forall p <- Scoped(ProjectsOf(t)) :: p in known
    ensures forall x <- ts + [t] :: Stored(InsertToken(db, known, t).0, x)
  {
    forall x <- ts + [t]
      ensures Stored(InsertToken(db, known, t).0, x)
    {
      InsertStored(db, known, t, x);
    }
  }

  /** What inserting the tokens one after another stores. */
  lemma {:induction false} InsertAllStores(known: set<string>, ts: seq<TokenCreate>)
    requires SecretsDistinct(ts) && ProjectsKnown(known, ts)
    ensures Stores(InsertAll(TokenTables(map[], []), known, ts), ts)
  {
    if ts != [] {
      InsertAllStores(known, ts[..|ts| - 1]);
      InsertStores(InsertAll(TokenTables(map[], []), known, ts[..|ts| - 1]), known, ts[..|ts| - 1], ts[|ts| - 1]);
      assert ts[..|ts| - 1] + [ts[|ts| - 1]] == ts;
    }
  }

  /** Whatever tokens are inserted and however the joined rows are ordered, the rebuilt tokens are those
      tokens, each once. */
  lemma TokensRoundTrip(known: set<string>, ts: seq<TokenCreate>, rows: seq<JoinRow>)
    requires SecretsDistinct(ts) && ProjectsKnown(known, ts)
    requires IsJoin(InsertAll(TokenTables(map[], []), known, ts), rows)
    ensures Fold(rows).Keys == Secrets(ts)
    ensures forall t <- ts :: t.secret in Fold(rows) && SameToken(t, Fold(rows)[t.secret])
  {
    var db := InsertAll(TokenTables(map[], []), known, ts);
    InsertAllStores(known, ts);
    JoinIsConsistent(db, rows);
    forall k
      ensures k in Fold(rows) <==> k in db.tokens
    {
      FoldMeans(rows, k);
      if k in db.tokens {
        TokenHasRow(db, rows, k);
      }
    }
    forall t <- ts
      ensures t.secret in Fold(rows) && SameToken(t, Fold(rows)[t.secret])
    {
      RebuiltToken(db, rows, t);
    }
  }

  lemma RebuiltToken(db: TokenTables, rows: seq<JoinRow>, t: TokenCreate)
    requires IsJoin(db, rows) && Stored(db, t)
    ensures t.secret in Fold(rows) && SameToken(t, Fold(rows)[t.secret])
  {
    JoinIsConsistent(db, rows);
    TokenHasRow(db, rows, t.secret);
    FoldMeans(rows, t.secret);
    RowProjectsAreLinks(db, rows, t.secret);
  }

  /** A token is stored exactly when its secret is new and its projects other than the wildcard are known; a refused
      one leaves no trace. */
  lemma InsertSucceedsIff(db: TokenTables, known: set<string>, t: TokenCreate)
    ensures var (r, o) := InsertToken(db, known, t);
            if t.secret in db.tokens then r == db && o == Failed(UniqueViolation)
            else if exists p :: p in ProjectsOf(t) && p != "*" && p !in known then r == db && o == Failed(ForeignKeyViolation)
            else
              && o == Done && r.tokens.Keys == db.tokens.Keys + {t.secret}
              && (forall k <- db.tokens :: r.tokens[k] == db.tokens[k])
              && r.tokens[t.secret].data == t.data
              && r.tokens[t.secret].alias == (if t.alias in {None, Some("")} then None else t.alias)
              && r.tokens[t.secret].environment == (if t.environment == "*" then None else Some(t.environment))
  {
    ScopedMeans(ProjectsOf(t));
  }

  lemma {:induction false} ScopedMeans(projects: seq<string>)
    ensures forall p :: p in Scoped(projects) <==> p in projects && p != "*"
  {
    if projects != [] {
      ScopedMeans(projects[..|projects| - 1]);
      assert projects == projects[..|projects| - 1] + [projects[|projects| - 1]];
    }
  }
}

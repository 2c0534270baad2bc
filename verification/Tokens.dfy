/** Repository calls on users, magic_tokens and api_tokens. */
module Tokens {
  import opened Basics
  import opened Schema
  import opened GrantMachine

  /** The user with this e-mail, created under `id` if there is none. */
  method CreateUser(db: Database, email: string, id: string, up: bool) returns (user: Option<string>)
    modifies db`users
    ensures user.Some? <==> up && (email in old(db.users) || id !in old(db.users.Values))
    ensures user.Some? ==> email in db.users && user.value == db.users[email]
    ensures db.users ==
            if user.Some? && email !in old(db.users) then old(db.users)[email := id] else old(db.users)
  {
    if !up { return None; }
    if email in db.users { return Some(db.users[email]); }
    if id in db.users.Values { return None; }
    db.users := db.users[email := id];
    return Some(id);
  }

  method InsertMagicToken(db: Database, hash: string, user: string, device: Option<string>, expiresAt: int, up: bool)
    returns (ok: bool)
    modifies db`magic
    ensures ok == (up && hash !in old(db.magic))
    ensures db.magic ==
            if ok then old(db.magic)[hash := MagicToken(Some(user), device, expiresAt, None)] else old(db.magic)
  {
    ok := up && hash !in db.magic;
    if ok {
      db.magic := db.magic[hash := MagicToken(Some(user), device, expiresAt, None)];
    }
  }

  /** Marks the link used if it is unused and unexpired; the answer is the row as it then reads. */
  method ConsumeMagicToken(db: Database, hash: string, now: int) returns (row: Option<MagicToken>)
    modifies db`magic
    ensures row == if hash in old(db.magic) && Usable(old(db.magic)[hash], now)
                   then Some(old(db.magic)[hash].(usedAt := Some(now))) else None
    ensures db.magic == if row.Some? then old(db.magic)[hash := row.value] else old(db.magic)
  {
    if hash !in db.magic || !Usable(db.magic[hash], now) { return None; }
    db.magic := db.magic[hash := db.magic[hash].(usedAt := Some(now))];
    row := Some(db.magic[hash]);
  }

  method CreateApiToken(db: Database, hash: string, user: string, node: Option<string>, tokenLabel: string,
                        scope: string, now: int, up: bool)
    returns (ok: bool)
    modifies db`apiTokens
    ensures ok == (up && hash !in old(db.apiTokens))
    ensures db.apiTokens ==
            if ok then old(db.apiTokens)[hash := ApiToken(user, node, tokenLabel, scope, now, None)]
            else old(db.apiTokens)
  {
    ok := up && hash !in db.apiTokens;
    if ok {
      db.apiTokens := db.apiTokens[hash := ApiToken(user, node, tokenLabel, scope, now, None)];
    }
  }

  /** Signing out stamps the token; user and node of the row stay. */
  method RevokeApiToken(db: Database, hash: string, now: int)
    modifies db`apiTokens
    ensures db.apiTokens ==
            if hash in old(db.apiTokens)
            then old(db.apiTokens)[hash := old(db.apiTokens)[hash].(revokedAt := Some(now))] else old(db.apiTokens)
  {
    if hash in db.apiTokens {
      db.apiTokens := db.apiTokens[hash := db.apiTokens[hash].(revokedAt := Some(now))];
    }
  }
}

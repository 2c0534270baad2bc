/** The SQLite schema: one row type per table, and the database as one field per table. */
module Schema {
  import opened Basics

  datatype Node = Node(
    userId: Option<string>,
    nodeType: string,
    endpoint: string,
    lastPing: Option<int>,
    active: bool,
    tokenHash: Option<string>,
    publicKey: bytes,  // empty: no key
    displayName: Option<string>,
    createdAt: int,
    revokedAt: Option<int>,
    introSecret: Option<string>)

  datatype MagicToken = MagicToken(
    userId: Option<string>,
    deviceCodeHash: Option<string>,
    expiresAt: int,
    usedAt: Option<int>)

  datatype ApiToken = ApiToken(
    userId: string,
    nodeId: Option<string>,
    tokenLabel: string,
    scope: string,
    createdAt: int,
    revokedAt: Option<int>)

  datatype SessionStatus = Pending | Approved | Denied | Expired | Consumed

  datatype Session = Session(
    userCode: string,
    userId: Option<string>,
    status: SessionStatus,
    nodeId: Option<string>,
    createdAt: int,
    expiresAt: int,
    approvedAt: Option<int>,
    consumedAt: Option<int>,
    pollInterval: int,
    lastPollAt: Option<int>)

  datatype Snapshot = Snapshot(payload: bytes, signature: bytes, ingestedAt: int)

  // A row of an index table: the full-text index holds payloads, the vector index embeddings.
  datatype IndexRow<T> = IndexRow(candidate: string, data: T)

  datatype IntroStatus = Queued | Retrying | Delivered | Failed | Undeliverable

  datatype IntroError = HttpError(message: string) | NonOk(code: int) | NoTarget

  datatype Intro = Intro(
    candidate: string,
    recruiter: string,
    nodeId: string,
    recruiterName: string,
    recruiterEmail: string,
    recruiterCompany: Option<string>,
    status: IntroStatus,
    createdAt: int,
    deliveredAt: Option<int>,
    attempts: int,
    lastError: Option<IntroError>,
    nextAttemptAt: Option<int>)

  // The tables behind sign-in, the device grant and node provisioning. `users` is keyed by e-mail.
  datatype Grants = Grants(
    nodes: map<string, Node>,
    users: map<string, string>,
    magic: map<string, MagicToken>,
    apiTokens: map<string, ApiToken>,
    sessions: map<string, Session>)

  // Snapshots are keyed by (node, candidate); neither index table has a key.
  datatype Catalog = Catalog(
    snapshots: map<(string, string), Snapshot>,
    fts: seq<IndexRow<bytes>>,
    vec: seq<IndexRow<seq<real>>>)

  /** The process-wide database handle. */
  class Database {
    var nodes: map<string, Node>
    var users: map<string, string>
    var magic: map<string, MagicToken>
    var apiTokens: map<string, ApiToken>
    var sessions: map<string, Session>
    var snapshots: map<(string, string), Snapshot>
    var fts: seq<IndexRow<bytes>>
    var vec: seq<IndexRow<seq<real>>>
    var intros: map<string, Intro>

    constructor ()
      ensures GrantTables() == Grants(map[], map[], map[], map[], map[])
      ensures CatalogTables() == Catalog(map[], [], [])
      ensures intros == map[]
    {
      nodes, users, magic, apiTokens, sessions := map[], map[], map[], map[], map[];
      snapshots, fts, vec, intros := map[], [], [], map[];
    }

    ghost function GrantTables(): Grants
      reads this
    {
      Grants(nodes, users, magic, apiTokens, sessions)
    }

    ghost function CatalogTables(): Catalog
      reads this
    {
      Catalog(snapshots, fts, vec)
    }
  }
}

/** The persisted records and the database session that holds them.

    `Account` and `MediaItem` follow the declared tables: accounts are keyed by
    an integer id and have a unique email, `is_active` defaults to true and
    `last_synced_at` starts out NULL; media items are keyed by their
    Google Photos id and point at their account only through `accountId`.

    `SpotifyConfig` and `MusicConfig` are used by the Spotify and music code but
    are not declared with the other tables. Their columns here are the ones the
    modelled operations read and write (the Spotify row has further columns
    that only the HTTP handlers touch), and every column is taken to be
    nullable and NULL by default. */
module Models {
  import opened Wrappers

  /** Timestamps, as whole seconds. */
  type Time = int

  datatype Account = Account(
    id: int,
    email: string,
    credentialsJson: string,
    isActive: bool,
    lastSyncedAt: Option<Time>)

  /** `Account(email=..., credentials_json=...)` stored under the id the
      database allocates: active, never synced. */
  function NewAccount(id: int, email: string, credentialsJson: string): (a: Account)
    ensures a.id == id && a.email == email && a.credentialsJson == credentialsJson
    ensures a.isActive && a.lastSyncedAt == None
  {
    Account(id, email, credentialsJson, true, None)
  }

  /** A catalog row. `creationTime` keeps the service's timestamp text; parsing
      it is not part of this model. */
  datatype MediaItem = MediaItem(
    id: string,
    accountId: int,
    baseUrl: string,
    mimeType: Option<string>,
    filename: Option<string>,
    creationTime: Option<string>)

  datatype SpotifyConfig = SpotifyConfig(
    clientId: Option<string>,
    clientSecret: Option<string>,
    accessToken: Option<string>,
    refreshToken: Option<string>,
    tokenExpiresAt: Option<Time>)

  const DefaultSpotifyConfig := SpotifyConfig(None, None, None, None, None)

  datatype MusicConfig = MusicConfig(
    youtubePlaylistId: Option<string>,
    musicEnabled: Option<bool>,
    volume: Option<int>)

  const DefaultMusicConfig := MusicConfig(None, None, None)

  /** Python truthiness of an optional string: present and non-empty. */
  predicate Truthy(s: Option<string>) {
    s.Some? && s.value != ""
  }

  predicate UniqueIds(accounts: seq<Account>) {
    forall i, j :: 0 <= i < j < |accounts| ==> accounts[i].id != accounts[j].id
  }

  predicate UniqueEmails(accounts: seq<Account>) {
    forall i, j :: 0 <= i < j < |accounts| ==> accounts[i].email != accounts[j].email
  }

  /** The catalog is keyed by the primary key: every row sits under its own id. */
  predicate Keyed(catalog: map<string, MediaItem>) {
    forall k :: k in catalog ==> catalog[k].id == k
  }

  /** The column a lookup filters accounts on: the primary key or the email. */
  datatype AccountKey = ById(id: int) | ByEmail(email: string)

  predicate Matches(a: Account, key: AccountKey) {
    match key
    case ById(id) => a.id == id
    case ByEmail(email) => a.email == email
  }

  /** `query(Account).filter(<column> == <value>).first()`, as a row index:
      the first row that matches the key, or none when no row does. */
  function Find(accounts: seq<Account>, key: AccountKey): (r: Option<nat>)
    ensures r.Some? ==> r.value < |accounts| && Matches(accounts[r.value], key)
    ensures r.Some? ==> forall j :: 0 <= j < r.value ==> !Matches(accounts[j], key)
    ensures r.None? ==> forall j :: 0 <= j < |accounts| ==> !Matches(accounts[j], key)
  {
    if accounts == [] then None
    else if Matches(accounts[0], key) then Some(0)
    else
      match Find(accounts[1..], key)
      case None => None
      case Some(k) => Some(k + 1)
  }

  /** A row appended to a table where no row matches the key is the one the
      key finds. */
  lemma {:induction false} FindAppend(accounts: seq<Account>, a: Account, key: AccountKey)
    requires Find(accounts, key).None? && Matches(a, key)
    ensures Find(accounts + [a], key) == Some(|accounts|)
  {
    if accounts != [] {
      assert (accounts + [a])[1..] == accounts[1..] + [a];
      FindAppend(accounts[1..], a, key);
    }
  }

  /** `query(T).first()` on a table that is created on first use: the table
      after the lookup. An existing first row is kept as it is; an empty table
      gets exactly one row, `default`. */
  function GetOrCreate<T>(rows: seq<T>, default: T): (r: seq<T>)
    ensures |r| >= 1
    ensures rows != [] ==> r == rows
    ensures rows == [] ==> r == [default]
  {
    if rows == [] then [default] else rows
  }

  /** The database as one session sees it, one field per table. */
  class Database {
    var accounts: seq<Account>
    var mediaItems: map<string, MediaItem>
    var spotifyConfigs: seq<SpotifyConfig>
    var musicConfigs: seq<MusicConfig>

    /** The keys the schema declares: account ids and emails are unique, and
        the catalog holds each media item under its own id. */
    ghost predicate Valid()
      reads this
    {
      UniqueIds(accounts) && UniqueEmails(accounts) && Keyed(mediaItems)
    }

    /** Freshly created tables. */
    constructor ()
      ensures Valid()
      ensures accounts == [] && mediaItems == map[] && spotifyConfigs == [] && musicConfigs == []
    {
      accounts := [];
      mediaItems := map[];
      spotifyConfigs := [];
      musicConfigs := [];
    }
  }
}

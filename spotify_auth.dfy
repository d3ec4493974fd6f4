/** The Spotify side of the backend: a single configuration row holding the
    app credentials and the user's tokens, the OAuth exchange that fills it,
    and the refresh rule applied before every Spotify call.

    The OAuth helper and the Web API client are supplied by the caller as a
    `SpotifyApi` value; the clock is a parameter (`now`, whole seconds). */
module SpotifyAuth {
  import opened Wrappers
  import opened Models

  const REDIRECT_URI := "http://localhost:8080/spotify/callback"
  const SCOPE := "user-read-playback-state user-modify-playback-state user-read-currently-playing playlist-read-private playlist-read-collaborative streaming"

  /** How many playlists one listing asks for. */
  const PLAYLIST_LIMIT := 50

  /** The fields of an OAuth token answer that the code reads. */
  datatype TokenInfo = TokenInfo(accessToken: string, refreshToken: string, expiresIn: int)

  /** The arguments every `SpotifyOAuth(...)` helper is built with. */
  datatype OAuthParams = OAuthParams(
    clientId: Option<string>,
    clientSecret: Option<string>,
    redirectUri: string,
    scope: string)

  /** An answer from the OAuth helper: a value, an empty (falsy) answer, or an
      exception. */
  datatype Reply<T> = Answer(value: T) | Empty | Raised

  /** A playlist entry of `current_user_playlists`, reduced to what is read. */
  datatype RawPlaylist = RawPlaylist(name: string, uri: string, tracksTotal: int)

  /** `{"name": ..., "uri": ..., "tracks": ...}`. */
  datatype PlaylistSummary = PlaylistSummary(name: string, uri: string, tracks: int)

  /** The outside world: `get_authorize_url`, `get_access_token(code)`,
      `refresh_access_token(refresh_token)` and `current_user_playlists(limit)`
      for a client authenticated with a given access token (`None`: it raised). */
  datatype SpotifyApi = SpotifyApi(
    authorizeUrl: OAuthParams -> string,
    accessToken: (OAuthParams, string) -> Reply<TokenInfo>,
    refreshAccessToken: (OAuthParams, Option<string>) -> Reply<TokenInfo>,
    currentUserPlaylists: (string, int) -> Option<seq<RawPlaylist>>)

  /** Why a call fails: `ValueError("Spotify Client ID and Secret not
      configured")`, `ValueError("Not authenticated with Spotify")`, or an
      exception from the OAuth helper or the Web API. */
  datatype SpotifyError = NotConfigured | NotAuthenticated | CallFailed

  datatype Result<T> = Ok(value: T) | Err(error: SpotifyError)

  /** The OAuth helper's arguments for a configuration row. */
  function OAuthFor(config: SpotifyConfig): OAuthParams {
    OAuthParams(config.clientId, config.clientSecret, REDIRECT_URI, SCOPE)
  }

  /** `get_auth_url` once the row is at hand: refused unless both the client id
      and the client secret are present and non-empty. */
  function AuthUrl(config: SpotifyConfig, api: SpotifyApi): (r: Result<string>)
    ensures r.Ok? <==> Truthy(config.clientId) && Truthy(config.clientSecret)
    ensures r.Err? ==> r.error == NotConfigured
    ensures r.Ok? ==> r.value == api.authorizeUrl(OAuthParams(config.clientId, config.clientSecret, REDIRECT_URI, SCOPE))
  {
    if !Truthy(config.clientId) || !Truthy(config.clientSecret) then Err(NotConfigured)
    else Ok(api.authorizeUrl(OAuthFor(config)))
  }

  /** `handle_callback` once the row is at hand: the answer to the code
      exchange, and the row after it. Tokens are stored only when the exchange
      gives some, with the expiry `expires_in` seconds after `now`. */
  function Callback(config: SpotifyConfig, reply: Reply<TokenInfo>, now: Time)
    : (r: (Result<bool>, SpotifyConfig))
    ensures r.0 == Ok(true) <==> reply.Answer?
    ensures reply.Empty? ==> r.0 == Ok(false)
    ensures reply.Raised? ==> r.0 == Err(CallFailed)
    ensures r.0 != Ok(true) ==> r.1 == config
    ensures reply.Answer? ==>
              && r.1.accessToken == Some(reply.value.accessToken)
              && r.1.refreshToken == Some(reply.value.refreshToken)
              && r.1.tokenExpiresAt == Some(now + reply.value.expiresIn)
              && r.1.clientId == config.clientId && r.1.clientSecret == config.clientSecret
  {
    match reply
    case Raised => (Err(CallFailed), config)
    case Empty => (Ok(false), config)
    case Answer(t) =>
      (Ok(true), config.(accessToken := Some(t.accessToken), refreshToken := Some(t.refreshToken),
                         tokenExpiresAt := Some(now + t.expiresIn)))
  }

  /** `config.token_expires_at and datetime.now() >= config.token_expires_at`:
      a row with no recorded expiry is never refreshed, and the expiry instant
      itself already counts as expired. */
  predicate NeedsRefresh(config: SpotifyConfig, now: Time)
    ensures config.tokenExpiresAt.None? ==> !NeedsRefresh(config, now)
    ensures config.tokenExpiresAt == Some(now) ==> NeedsRefresh(config, now)
  {
    config.tokenExpiresAt.Some? && now >= config.tokenExpiresAt.value
  }

  /** Once a token needs refreshing it keeps needing it as time goes on. */
  lemma NeedsRefreshStays(config: SpotifyConfig, now: Time, later: Time)
    requires now <= later
    ensures NeedsRefresh(config, now) ==> NeedsRefresh(config, later)
  {
  }

  /** `_refresh_token` with the helper's answer `t`: a new access token and
      expiry; the refresh token and the app credentials are kept. */
  function Refreshed(config: SpotifyConfig, t: TokenInfo, now: Time): (c: SpotifyConfig)
    ensures c.accessToken == Some(t.accessToken) && c.tokenExpiresAt == Some(now + t.expiresIn)
    ensures c.refreshToken == config.refreshToken
    ensures c.clientId == config.clientId && c.clientSecret == config.clientSecret
  {
    config.(accessToken := Some(t.accessToken), tokenExpiresAt := Some(now + t.expiresIn))
  }

  /** `get_spotify_client` once the row is at hand: the access token the client
      is built with, and the row after it. Without an access token the call is
      refused; the token is refreshed exactly when the stored expiry is set and
      reached; a row is changed only by a refresh that succeeds, and never
      loses its refresh token. */
  function ClientFor(config: SpotifyConfig, now: Time, api: SpotifyApi)
    : (r: (Result<string>, SpotifyConfig))
    ensures !Truthy(config.accessToken) ==> r == (Err(NotAuthenticated), config)
    ensures Truthy(config.accessToken) && !NeedsRefresh(config, now) ==>
              r == (Ok(config.accessToken.value), config)
    ensures Truthy(config.accessToken) && NeedsRefresh(config, now) ==>
              var reply := api.refreshAccessToken(OAuthFor(config), config.refreshToken);
              if reply.Answer? then r == (Ok(reply.value.accessToken), Refreshed(config, reply.value, now))
              else r == (Err(CallFailed), config)
    ensures r.1.refreshToken == config.refreshToken
    ensures config.tokenExpiresAt.None? ==> r.1 == config
  {
    if !Truthy(config.accessToken) then (Err(NotAuthenticated), config)
    else if NeedsRefresh(config, now) then
      match api.refreshAccessToken(OAuthFor(config), config.refreshToken)
      case Answer(t) => (Ok(t.accessToken), Refreshed(config, t, now))
      case _ => (Err(CallFailed), config)
    else (Ok(config.accessToken.value), config)
  }

  /** The list comprehension of `get_user_playlists`. */
  function Summaries(items: seq<RawPlaylist>): (r: seq<PlaylistSummary>)
    ensures |r| == |items|
    ensures forall i :: 0 <= i < |items| ==>
              r[i].name == items[i].name && r[i].uri == items[i].uri && r[i].tracks == items[i].tracksTotal
  {
    if items == [] then []
    else [PlaylistSummary(items[0].name, items[0].uri, items[0].tracksTotal)] + Summaries(items[1..])
  }

  /** Summarising keeps the order: the summaries of a concatenation are the
      concatenation of the summaries. */
  lemma {:induction false} SummariesAppend(a: seq<RawPlaylist>, b: seq<RawPlaylist>)
    ensures Summaries(a + b) == Summaries(a) + Summaries(b)
  {
    if a != [] {
      assert (a + b)[1..] == a[1..] + b;
      SummariesAppend(a[1..], b);
    }
  }

  /** `get_user_playlists` once the row is at hand. */
  function Playlists(config: SpotifyConfig, now: Time, api: SpotifyApi)
    : (r: (Result<seq<PlaylistSummary>>, SpotifyConfig))
    ensures r.1 == ClientFor(config, now, api).1
    ensures ClientFor(config, now, api).0.Err? ==> r.0 == Err(ClientFor(config, now, api).0.error)
    ensures ClientFor(config, now, api).0.Ok? ==>
              var listed := api.currentUserPlaylists(ClientFor(config, now, api).0.value, PLAYLIST_LIMIT);
              && (listed.None? ==> r.0 == Err(CallFailed))
              && (listed.Some? ==> r.0 == Ok(Summaries(listed.value)) && |r.0.value| == |listed.value|)
  {
    var (client, after) := ClientFor(config, now, api);
    match client
    case Err(e) => (Err(e), after)
    case Ok(token) =>
      match api.currentUserPlaylists(token, PLAYLIST_LIMIT)
      case None => (Err(CallFailed), after)
      case Some(items) => (Ok(Summaries(items)), after)
  }

  /** Tokens just stored are used as they are until their expiry. */
  lemma FreshTokensNotRefreshed(config: SpotifyConfig, t: TokenInfo, stored: Time, now: Time, api: SpotifyApi)
    requires t.accessToken != "" && now < stored + t.expiresIn
    ensures var c := Callback(config, Answer(t), stored).1;
            ClientFor(c, now, api) == (Ok(t.accessToken), c)
  {
  }

  /** Once the stored expiry is reached, the next client refreshes, and the
      refresh token from the exchange survives the refresh. */
  lemma ExpiredTokensRefreshed(config: SpotifyConfig, t: TokenInfo, stored: Time, now: Time,
                               api: SpotifyApi, renewed: TokenInfo)
    requires t.accessToken != "" && now >= stored + t.expiresIn
    requires api.refreshAccessToken(OAuthFor(config), Some(t.refreshToken)) == Answer(renewed)
    ensures var c := Callback(config, Answer(t), stored).1;
            && ClientFor(c, now, api).0 == Ok(renewed.accessToken)
            && ClientFor(c, now, api).1.refreshToken == Some(t.refreshToken)
            && ClientFor(c, now, api).1.tokenExpiresAt == Some(now + renewed.expiresIn)
  {
  }

  /** `SpotifyAuthManager`: the OAuth settings, and the operations on the
      single configuration row (the first row of the table, created on first
      use). */
  class SpotifyAuthManager {
    const redirectUri: string := REDIRECT_URI
    const scope: string := SCOPE

    /** The manager carries the fixed callback address and scope list. */
    constructor ()
      ensures redirectUri == REDIRECT_URI && scope == SCOPE
    {
    }

    /** `get_config`: the first row, created with every column empty when the
        table has none. */
    method GetConfig(db: Database) returns (config: SpotifyConfig)
      modifies db`spotifyConfigs
      ensures db.spotifyConfigs == GetOrCreate(old(db.spotifyConfigs), DefaultSpotifyConfig)
      ensures config == db.spotifyConfigs[0]
      ensures old(db.spotifyConfigs) != [] ==> config == old(db.spotifyConfigs)[0]
    {
      if db.spotifyConfigs == [] {
        db.spotifyConfigs := [DefaultSpotifyConfig];
      }
      config := db.spotifyConfigs[0];
    }

    /** `get_auth_url`. */
    method GetAuthUrl(db: Database, api: SpotifyApi) returns (r: Result<string>)
      modifies db`spotifyConfigs
      ensures db.spotifyConfigs == GetOrCreate(old(db.spotifyConfigs), DefaultSpotifyConfig)
      ensures r == AuthUrl(db.spotifyConfigs[0], api)
    {
      var config := GetConfig(db);
      if !Truthy(config.clientId) || !Truthy(config.clientSecret) {
        return Err(NotConfigured);
      }
      r := Ok(api.authorizeUrl(OAuthParams(config.clientId, config.clientSecret, redirectUri, scope)));
    }

    /** `handle_callback(code)`. */
    method HandleCallback(db: Database, code: string, api: SpotifyApi, now: Time) returns (r: Result<bool>)
      modifies db`spotifyConfigs
      ensures var rows := GetOrCreate(old(db.spotifyConfigs), DefaultSpotifyConfig);
              var reply := api.accessToken(OAuthFor(rows[0]), code);
              && |db.spotifyConfigs| == |rows| && db.spotifyConfigs[1..] == rows[1..]
              && (r, db.spotifyConfigs[0]) == Callback(rows[0], reply, now)
    {
      var config := GetConfig(db);
      var reply := api.accessToken(OAuthParams(config.clientId, config.clientSecret, redirectUri, scope), code);
      match reply {
        case Raised => return Err(CallFailed);
        case Empty => return Ok(false);
        case Answer(t) =>
          config := config.(accessToken := Some(t.accessToken), refreshToken := Some(t.refreshToken));
          config := config.(tokenExpiresAt := Some(now + t.expiresIn));
          db.spotifyConfigs := db.spotifyConfigs[0 := config];
          return Ok(true);
      }
    }

    /** `get_spotify_client`: the access token the client is built with. */
    method GetSpotifyClient(db: Database, api: SpotifyApi, now: Time) returns (r: Result<string>)
      modifies db`spotifyConfigs
      ensures var rows := GetOrCreate(old(db.spotifyConfigs), DefaultSpotifyConfig);
              && |db.spotifyConfigs| == |rows| && db.spotifyConfigs[1..] == rows[1..]
              && (r, db.spotifyConfigs[0]) == ClientFor(rows[0], now, api)
    {
      var config := GetConfig(db);
      if !Truthy(config.accessToken) {
        return Err(NotAuthenticated);
      }
      if config.tokenExpiresAt.Some? && now >= config.tokenExpiresAt.value {
        var refreshed := RefreshToken(db, api, now);
        if !refreshed {
          return Err(CallFailed);
        }
      }
      r := Ok(db.spotifyConfigs[0].accessToken.value);
    }

    /** `_refresh_token` on the first row; false when the helper raised (the
        row is then unchanged). */
    method RefreshToken(db: Database, api: SpotifyApi, now: Time) returns (ok: bool)
      requires db.spotifyConfigs != []
      modifies db`spotifyConfigs
      ensures var config := old(db.spotifyConfigs)[0];
              var reply := api.refreshAccessToken(OAuthFor(config), config.refreshToken);
              && ok == reply.Answer?
              && db.spotifyConfigs == if ok then old(db.spotifyConfigs)[0 := Refreshed(config, reply.value, now)]
                                      else old(db.spotifyConfigs)
    {
      var config := db.spotifyConfigs[0];
      var reply := api.refreshAccessToken(OAuthParams(config.clientId, config.clientSecret, redirectUri, scope),
                                          config.refreshToken);
      if !reply.Answer? {
        return false;
      }
      config := config.(accessToken := Some(reply.value.accessToken));
      config := config.(tokenExpiresAt := Some(now + reply.value.expiresIn));
      db.spotifyConfigs := db.spotifyConfigs[0 := config];
      ok := true;
    }

    /** `get_user_playlists`. */
    method GetUserPlaylists(db: Database, api: SpotifyApi, now: Time) returns (r: Result<seq<PlaylistSummary>>)
      modifies db`spotifyConfigs
      ensures var rows := GetOrCreate(old(db.spotifyConfigs), DefaultSpotifyConfig);
              && |db.spotifyConfigs| == |rows| && db.spotifyConfigs[1..] == rows[1..]
              && (r, db.spotifyConfigs[0]) == Playlists(rows[0], now, api)
    {
      var client := GetSpotifyClient(db, api, now);
      if client.Err? {
        return Err(client.error);
      }
      var listed := api.currentUserPlaylists(client.value, PLAYLIST_LIMIT);
      if listed.None? {
        return Err(CallFailed);
      }
      r := Ok(Summaries(listed.value));
    }
  }
}

# Photo slideshow backend — a verified model of its core

The backend indexes the Google Photos libraries of several accounts into one
catalog and runs a slideshow: a background loop picks a random picture,
builds a signed Backblaze B2 download URL for it and publishes that URL for a
display to poll. It also keeps the Spotify tokens and the music settings of
the display. This project models the following parts of it in Dafny and
proves what each part promises.

- **Slideshow controller** (`slideshow.dfy`, `Slideshow`). A class with
  these fields:
  - the stop flag;
  - the loop thread, abstracted to its interval and a liveness flag;
  - the per-account B2 client cache;
  - the published image record;
  - the last critical error.

  `Start`, `Stop` and one pass of the loop (`Step`) are methods. The random
  pick, the account lookup and b2sdk are inputs to them.
- **Catalog sync worker** (`worker.dfy`, `Worker`).
  - The listing is streamed into batches of 100, and each batch is merged
    into the catalog by primary key.
  - `last_synced_at` is set only after the whole listing is consumed. An
    exception leaves the committed batches in place and the timestamp
    unchanged.
  - Syncing every active account runs one account after another.
- **Google Photos pagination** (`google_photos.dfy`, `GooglePhotos`). The
  `nextPageToken` loop runs over a finite sequence of responses.
- **B2 client** (`b2_client.dfy`, `B2`, and `quote.dfy`, `UrlQuote`).
  - Credentials are stripped.
  - The download URL is assembled around `quote(name, safe='/')`. That is
    UTF-8 (RFC 3629) followed by percent-encoding as in sections 2.1 and 2.3
    of RFC 3986.
  - `list_files` yields the file version of every listing entry and drops
    the folder names.
- **Google credentials and accounts** (`auth.dfy`, `Auth`).
  - Credentials are loaded and refreshed only when they are expired and have
    a refresh token.
  - Accounts are upserted by email.
- **Spotify tokens** (`spotify_auth.dfy`, `SpotifyAuth`).
  - The configuration row is a singleton, created on first use.
  - The OAuth callback stores the tokens.
  - A refresh happens exactly when the stored expiry is reached, and it
    keeps the refresh token.
  - Playlists are summarised.
- **Music settings** (`music.dfy`, `Music`). The configuration row is
  fetched or created on first use, and updates are partial.
- **Records and keys** (`models.dfy`, `Models`).
  - Accounts are keyed by id and have a unique email.
  - Media items are keyed by their Google id.
  - `is_active` defaults to true, and `last_synced_at` starts out empty.
  - A media item refers to its account only through the integer
    `accountId`. No foreign-key constraint is declared or modelled.

Two conventions run through the whole model:

- Stateful code is modelled imperatively. The database is a `Database`
  object with one field per table, and each method names the tables it
  writes. Every such method is tied to a pure function of the old state,
  and the properties are proved about those functions.
- Foreign calls are inputs. The Google, Spotify and b2sdk libraries are
  function-valued inputs, and a call that raises returns `None`, `Raised`
  or `Err`. The clock is an input `now`, in whole seconds.

## Model

| member | source | states |
|---|---|---|
| Models.NewAccount | backend/models.py:8-12 | A new account carries the given email and credentials, is active by default and has never been synced. |
| Models.Find | backend/worker.py:15 | A lookup by id or by email: the row found matches the key and no earlier row does; no result means no row does. |
| Models.FindAppend | backend/auth.py:33-43 | A row appended to a table where no row matches the key is the one the key then finds. |
| Models.GetOrCreate | backend/spotify_auth.py:16-22 | An existing table is kept as it is; an empty one gets exactly one default row. |
| Models.Database.constructor | backend/models.py:5-24 | Fresh tables satisfy the declared keys: unique account ids and emails, each media item stored under its own id. |
| UrlQuote.EncodeChar | backend/utils/b2_client.py:40 | A character becomes 1 to 4 UTF-8 bytes, a single byte exactly for ASCII, the others continuation bytes. |
| UrlQuote.DecodeEncodeChar | backend/utils/b2_client.py:40 | Decoding the UTF-8 encoding of a character, whatever follows it, gives back the character and its length. |
| UrlQuote.Utf8RoundTrip | backend/utils/b2_client.py:40 | UTF-8 decoding inverts the encoding of every string. |
| UrlQuote.Quote | backend/utils/b2_client.py:40 | Every character of the quoted name is an unreserved character, `/`, `%` or a hex digit. |
| UrlQuote.QuoteByte | backend/utils/b2_client.py:40 | An unreserved byte or `/` is kept as is; any other byte becomes `%` and two upper-case hex digits. |
| UrlQuote.QuoteBytesRoundTrip | backend/utils/b2_client.py:40 | Percent-decoding inverts percent-encoding on every byte sequence. |
| UrlQuote.QuoteRoundTrip | backend/utils/b2_client.py:40 | Percent-decoding the quoted file name, then UTF-8 decoding, gives back the file name. |
| UrlQuote.QuoteIsUrlSafe | backend/utils/b2_client.py:40-41 | The quoted name is ASCII and contains no `?` and no `#`. |
| UrlQuote.QuoteKeepsSafeName | backend/utils/b2_client.py:40 | A name made only of unreserved characters and `/` is left unchanged. |
| B2.AsciiWhitespace | backend/utils/b2_client.py:9-10 | `IsWhitespace` follows Python's `str.isspace`; below 128 it accepts exactly tab, line feed, vertical tab, form feed, carriage return, the four information separators and the space. |
| B2.LeadingSpace | backend/utils/b2_client.py:9-10 | Counts the whitespace prefix: all of it is whitespace and the next character is not. |
| B2.TrailingSpace | backend/utils/b2_client.py:9-10 | Counts the whitespace suffix: all of it is whitespace and the character before it is not. |
| B2.Strip | backend/utils/b2_client.py:9-10 | The result is a slice of the input that neither starts nor ends with whitespace. |
| B2.StripIdempotent | backend/utils/b2_client.py:9-10 | Stripping twice is stripping once. |
| B2.NewB2Client | backend/utils/b2_client.py:7-20 | A client exists exactly when authorisation accepts the stripped pair, where a missing or empty credential becomes `""`; it stores the stripped pair. |
| B2.GetDownloadUrl | backend/utils/b2_client.py:28-41 | The token is requested for exactly this file name and validity. The URL is base, `/file/`, bucket, `/`, quoted name, `?Authorization=` and the token. It fails exactly when the token request fails. |
| B2.DownloadUrlQuery | backend/utils/b2_client.py:39-41 | When the base URL and the bucket have no `?`, the first `?` of the URL is the one after the quoted name. Everything after it is `Authorization=` and the token. |
| B2.DownloadUrl | backend/utils/b2_client.py:39-41 | The URL starts with `base/file/bucket/`, the segment up to the query percent-decodes back to the file name, and the URL ends with `?Authorization=` and the token. |
| B2.ListFiles | backend/utils/b2_client.py:22-26 | Yields one file version per listing entry, in listing order, with the folder names dropped. |
| GooglePhotos.HasNext | backend/utils/google_photos.py:21-22 | A page with no token or an empty token ends the listing; any other token continues it. |
| GooglePhotos.Paginate | backend/utils/google_photos.py:10-23 | The items are those of the pages fetched, in order. Every fetched page but the last has a next token. The listing is complete exactly when it ended at a page without one; otherwise every response was used. |
| GooglePhotos.PaginateStopsAtFirstTerminal | backend/utils/google_photos.py:21-23 | Listing stops right after the first page whose token is missing or empty, and later responses do not matter. |
| GooglePhotos.EmptyPageContinues | backend/utils/google_photos.py:17-21 | A page without `mediaItems` that carries a token contributes nothing and does not end the listing. |
| GooglePhotos.RequestsForAt | backend/utils/google_photos.py:10-21 | Request `j` asks for `pageSize` items with no token when `j` is 0 and with the previous page's token otherwise. |
| GooglePhotos.ListMediaItems | backend/utils/google_photos.py:8-23 | The loop makes at most one request more than there are responses. Every request uses the same page size and the previous page's token. The loop yields exactly the listing `Paginate` describes. |
| Auth.NeedsRefresh | backend/auth.py:17 | Unexpired credentials are never refreshed, nor expired ones whose refresh token is missing or empty; expired credentials with a refresh token are. |
| Auth.LookupCredentials | backend/auth.py:9-24 | An unknown account gives nothing and changes nothing. Stored credentials that do not load raise, and so does a needed refresh that fails; neither writes anything. Loaded credentials that need no refresh are returned unchanged. A successful refresh returns the refreshed credentials and writes them back. The stored row changes only in that case. |
| Auth.GetCredentialsForAccount | backend/auth.py:9-24 | Returns and stores what `LookupCredentials` describes, and keeps the table's keys unique. |
| Auth.NextId | backend/models.py:8 | A new id is positive and above every id in use. |
| Auth.UpsertByEmail | backend/auth.py:33-43 | A new email appends exactly one active account. A known email has its credentials replaced and is reactivated in place, with no other row touched. Ids and emails stay unique. |
| Auth.CreateOrUpdateAccount | backend/auth.py:26-43 | Stores the table `UpsertByEmail` describes and returns the stored row of that email. |
| Worker.Merge | backend/worker.py:86-89 | Merging items into a keyed catalog keeps it keyed. |
| Worker.MergeKeys | backend/worker.py:86-89 | After a merge the catalog holds exactly the old ids and the merged items' ids. |
| Worker.MergeGrows | backend/worker.py:86-89 | A merge never deletes a row. |
| Worker.MergeContents | backend/worker.py:86-89 | Rows whose ids are not merged are unchanged. Each merged id holds its last item, so a later duplicate wins. |
| Worker.MergeAppend | backend/worker.py:67-75 | Merging two batches one after the other equals merging their concatenation. |
| Worker.MergeIdempotent | backend/worker.py:86-89 | Merging the same items twice is merging them once. |
| Worker.ToMediaItem | backend/worker.py:54-61 | A row is built exactly when `id` and `baseUrl` are present. It copies the fields and belongs to the syncing account. `creation_time` is set exactly when `mediaMetadata` and its `creationTime` are both present. |
| Worker.FirstUnconvertible | backend/worker.py:54-61 | Every item before the returned position converts, and the item at it does not. |
| Worker.ConvertedItems | backend/worker.py:50-65 | The converted prefix is, item by item, the conversion of the listing. |
| Worker.AllFullMeans | backend/worker.py:48-70 | A sequence of flushed batches is all-full exactly when every batch holds 100 items. |
| Worker.FullThenWellBatched | backend/worker.py:67-75 | Full batches followed by a final batch of 1 to 100 items are well batched. |
| Worker.Committed | backend/worker.py:67-70 | The number of items committed in full batches is a multiple of 100, and fewer than 100 items are left over. |
| Worker.SaveBatch | backend/worker.py:86-89 | The catalog becomes the merge of the batch into it. |
| Worker.CommittedRows | backend/worker.py:50-82 | The committed rows are a prefix of the converted listing; a count that is not a multiple of 100 means the run completed. |
| Worker.SaveListing | backend/worker.py:46-71 | It stops at the first item that does not convert. The flushed batches hold 100 items each, and fewer than 100 remain in the buffer. Batches and buffer together are the converted listing. The catalog is the merge of the flushed batches. |
| Worker.FullBatchesSize | backend/worker.py:67-70 | Full batches hold 100 times their number of items. |
| Worker.CommittedAtExit | backend/worker.py:73-82 | The final buffer is flushed only when the whole listing was consumed; otherwise only the full batches are committed. |
| Worker.MarkSynced | backend/worker.py:77-78 | Sets `last_synced_at` of one account to now and touches no other row and no key. |
| Worker.SyncRun | backend/worker.py:12-84 | Whatever happens, only the synced account's row may change and ids and emails stay unique. |
| Worker.CredentialFailureAborts | backend/worker.py:22-84 | Credentials that do not load, or a needed refresh that fails, abort the run: nothing is committed and the account table, `last_synced_at` included, is unchanged. |
| Worker.SyncRunOutcome | backend/worker.py:12-84 | An unknown account, or credentials that do not load, change nothing and commit nothing. A run finishes exactly when credentials load and the listing completes and converts. It then commits every listed item, counts them and sets `last_synced_at`. Otherwise no `last_synced_at` changes and only whole batches of 100 are committed. The committed rows are always a prefix of the listing. |
| Worker.SyncAccountWorker | backend/worker.py:12-84 | Leaves the account table and the committed batches that `SyncRun` describes. The flushed batches are well batched, and all full unless the run finished. The catalog is the merge of every flushed batch, and the keys stay valid. |
| Worker.ActiveIds | backend/worker.py:94 | Lists exactly the ids of the active accounts, with no id twice when ids are unique. |
| Worker.SyncKeepsInactive | backend/worker.py:94-96 | Syncing an active account keeps every inactive account's row and every row's identity. |
| Worker.SyncAll | backend/worker.py:91-98 | Running the per-account sync for each id in turn keeps account ids and emails unique and keeps the catalog keyed. |
| Worker.SyncAllKeeps | backend/worker.py:94-96 | Syncing a list of active ids keeps every inactive row as it was and every row's id, email and active flag, and the catalog never loses a row. |
| Worker.SyncAllAccountsWorker | backend/worker.py:91-98 | The account table and the catalog become exactly `SyncAll` over the ids `ActiveIds` lists, one account after another. Inactive rows stay as they were and ids, emails and active flags are kept. The catalog never loses a row. |
| SpotifyAuth.AuthUrl | backend/spotify_auth.py:24-36 | Succeeds exactly when both the client id and the secret are present and non-empty. It then returns the helper's authorize URL for the fixed redirect URI and scope. |
| SpotifyAuth.Callback | backend/spotify_auth.py:38-56 | Returns true exactly when the exchange gives a token. It then stores the access token, the refresh token and `now + expires_in`. An empty answer returns false, and every outcome other than true leaves the row unchanged. |
| SpotifyAuth.NeedsRefresh | backend/spotify_auth.py:66 | A row with no stored expiry never needs a refresh; at the expiry instant itself it already does. |
| SpotifyAuth.NeedsRefreshStays | backend/spotify_auth.py:66 | Once a token needs refreshing it keeps needing it at every later time. |
| SpotifyAuth.Refreshed | backend/spotify_auth.py:80-83 | A refresh replaces the access token and the expiry and keeps the refresh token and the app credentials. |
| SpotifyAuth.ClientFor | backend/spotify_auth.py:58-69 | It fails without an access token. It refreshes exactly when an expiry is stored and reached, so never without an expiry. The refresh token is never lost. |
| SpotifyAuth.Summaries | backend/spotify_auth.py:89-96 | One `{name, uri, tracks}` entry per playlist, in the same order. |
| SpotifyAuth.SummariesAppend | backend/spotify_auth.py:89-96 | Summarising a concatenation is concatenating the summaries. |
| SpotifyAuth.Playlists | backend/spotify_auth.py:85-96 | Passes on the client's failure. Otherwise it gives the summaries of the listing, or a failure when the listing raises. The row is the one the client left. |
| SpotifyAuth.FreshTokensNotRefreshed | backend/spotify_auth.py:49-67 | Tokens just stored are used unrefreshed until their expiry. |
| SpotifyAuth.ExpiredTokensRefreshed | backend/spotify_auth.py:66-83 | Once the stored expiry is reached the next client refreshes, and the refresh token from the exchange survives. |
| SpotifyAuth.SpotifyAuthManager.constructor | backend/spotify_auth.py:10-12 | The manager holds the fixed callback URI and scope list. |
| SpotifyAuth.SpotifyAuthManager.GetConfig | backend/spotify_auth.py:14-22 | Returns the first row, creating exactly one empty row when the table is empty. |
| SpotifyAuth.SpotifyAuthManager.GetAuthUrl | backend/spotify_auth.py:24-36 | The URL or the refusal that `AuthUrl` describes, after get-or-create. |
| SpotifyAuth.SpotifyAuthManager.HandleCallback | backend/spotify_auth.py:38-56 | The first row and the answer are as `Callback` describes; no other row changes. |
| SpotifyAuth.SpotifyAuthManager.GetSpotifyClient | backend/spotify_auth.py:58-69 | The first row and the token are as `ClientFor` describes; no other row changes. |
| SpotifyAuth.SpotifyAuthManager.RefreshToken | backend/spotify_auth.py:71-83 | A successful refresh writes `Refreshed` into the first row; a failed one changes nothing. |
| SpotifyAuth.SpotifyAuthManager.GetUserPlaylists | backend/spotify_auth.py:85-96 | The first row and the answer are as `Playlists` describes. |
| Music.ParseSettings | backend/routers/music.py:17-20 | A request without a playlist id or volume defaults them to none and 50; `music_enabled` is taken as given. |
| Music.ApplySettings | backend/routers/music.py:46-51 | The playlist id is overwritten only when the request carries one. The enabled flag and the volume are always overwritten. |
| Music.ApplySettingsIdempotent | backend/routers/music.py:38-55 | Sending the same settings twice is sending them once. |
| Music.ApplySettingsTwice | backend/routers/music.py:46-51 | A later update wins. An earlier playlist id survives a later update without one. |
| Music.UpdatedConfigs | backend/routers/music.py:41-51 | Updates the first row, or creates exactly one row when there is none; other rows are untouched. |
| Music.GetMusicConfig | backend/routers/music.py:22-36 | Returns the first row, creating exactly one empty row when the table is empty. |
| Music.UpdateMusicConfig | backend/routers/music.py:38-55 | Stores the table `UpdatedConfigs` describes. It answers with the fixed message and the request itself, not the stored row. |
| Slideshow.HasAccount | backend/slideshow.py:64 | A pick that is not an item, or whose account id is missing or 0, is skipped; any other account id is used. |
| Slideshow.ClientFor | backend/slideshow.py:70-74 | An account already in the cache uses its cached client; otherwise a new client is built from the row's credentials. |
| Slideshow.Iterate | backend/slideshow.py:57-84 | A cached client is never replaced, and at most the item's account joins the cache. A pass without a usable item and account row changes nothing. Otherwise the client is the cached one for the item's account, or a new one from the row's credentials. Without a client nothing changes. With one, the cache holds it under that account even when no token is issued, and the record gets the item's file name and exactly the download URL for the row's bucket, the file name and the default validity; without a token the record stays. |
| Slideshow.IterateAllKeepsCache | backend/slideshow.py:52-88 | Over any number of passes a cached client is never replaced, and the cache gains only the accounts of the items drawn. Interval and `show_filename` stay, and `url` and `filename` stay paired. |
| Slideshow.SlideshowController.constructor | backend/slideshow.py:11-21 | A fresh controller has no thread, no stop request, no error and an empty cache. Its record has no `url` or `filename`, interval 20 and `show_filename` false. |
| Slideshow.SlideshowController.IsRunning | backend/slideshow.py:23-24 | True exactly when a thread exists and is alive. |
| Slideshow.SlideshowController.Start | backend/slideshow.py:30-40 | While a loop is alive it changes nothing. Otherwise it clears the stop request, records interval and `show_filename`, and launches exactly one loop with that interval. The cache and the error are untouched. |
| Slideshow.SlideshowController.Stop | backend/slideshow.py:42-47 | Always sets the stop request and empties the cache. The thread stays alive only if it did not end within the join. |
| Slideshow.SlideshowController.GetCurrentImageData | backend/slideshow.py:49-50 | Returns the record, whose `url` and `filename` are both set or both unset. |
| Slideshow.SlideshowController.GetLastError | backend/slideshow.py:96-97 | Returns the last critical error. |
| Slideshow.SlideshowController.RunPass | backend/slideshow.py:56-84 | Cache and record become what `Iterate` describes. |
| Slideshow.SlideshowController.Step | backend/slideshow.py:52-94 | A stop request ends the loop and changes nothing else. A failure to open the session records `Error: ` and the message and ends the loop. Otherwise the pass is `Iterate`, errors are swallowed, and the loop sleeps 5 s on an empty catalog or else waits out its interval. |

## Left out

- Threads and timing are not modelled.
  - The loop thread is a liveness flag, and `join(timeout=5)` is the input `joinedInTime`.
  - `Step` reports whether the loop sleeps or waits, but does not perform the wait.
  - A stop requested during the wait is seen at the next `Step`.
- Slideshow.SlideshowController.Step: only an error while opening the session is treated as critical. An exception from closing the session or from the wait is not modelled.
- The schema lacks what the slideshow reads. `backend/slideshow.py` reads `b2_account_id` and `file_name` of a media item and a `B2Account` table, and `backend/models.py` declares none of them. With the declared schema that branch raises and is swallowed. The model takes the item's account id, its file name and the account row as inputs instead of inventing a schema.
- `discover_devices` always returns an empty list; it is not modelled.
- The database session is not modelled: `commit`, `refresh`, `close` and the random ordering of the pick. Each table is a field of `Database`, and the random pick is an input.
- Logging is not modelled, nor the worker's diagnostic token-inspection request and albums probe (`backend/worker.py:28-44`). They do not change any state.
- `creation_time` keeps the service's text: ISO-8601 parsing is not modelled. `backend/worker.py:60` parses it with `datetime.fromisoformat`, which raises on text it does not accept (before Python 3.11 this includes the nine-digit fractions the Photos API can send). Such an exception aborts the run, drops the open batch and leaves `last_synced_at` as it was. The model converts any text, so `ToMediaItem` builds a row exactly when `id` and `baseUrl` are present only for text that parses. Timestamps are whole seconds, so time zones and `timedelta` arithmetic are not modelled.
- Worker.SyncAccountWorker: the listing is computed in full before it is consumed. The source interleaves page requests with batch saves. That yields the same catalog and account table, but the source makes no further requests after an item fails to convert, and the model does.
- Worker.ActiveIds: it states which ids are listed, not the row order of the query, which the source does not fix either.
- The "no credentials" exit of the worker (`backend/worker.py:23-25`) cannot happen. A credentials object is always truthy, and the lookup returns nothing only for an unknown account. `SyncRunOutcome` proves that this outcome never occurs.
- Integer widths are not modelled; the model's integers are unbounded. The source raises in two cases:
  - on a `volume` beyond the range of the database column. The request model does not bound it (`backend/routers/music.py:20`), so the commit fails and the row stays as it was.
  - on an `expires_in` that takes `datetime.now() + timedelta(...)` past year 9999 (`backend/spotify_auth.py:53`, `backend/spotify_auth.py:82`).
  The model stores any value in both cases.
- Music.UpdateMusicConfig: stores any `volume`, whereas the source's commit raises on one beyond the column's range and leaves the row as it was; `Music.UpdatedConfigs` likewise.
- SpotifyAuth.Callback: computes `now + expiresIn` for any value, whereas the source raises `OverflowError` once the expiry passes year 9999; `SpotifyAuth.Refreshed` likewise.
- The Spotify helper's own token cache and the `spotipy.Spotify` object are not modelled. A client is represented by its access token.
- `get_media_item` of the Google Photos client is not modelled; the sync worker does not use it.
- The HTTP routers and app wiring are not part of this model: `backend/routers/auth.py`, `backend/routers/dashboard.py`, `backend/routers/spotify.py` and `backend/main.py`. Among the things they do, `backend/routers/dashboard.py:39` passes a device name where `start` expects the interval.
- The `created_at` and `indexed_at` server-side timestamps are not modelled.
- `backend/models.py` declares no `SpotifyConfig` and no `MusicConfig` table, although `backend/spotify_auth.py:5` and `backend/routers/music.py:4` import them. The model assumes both tables, with the columns the modelled operations use, every column NULL by default. That assumption decides what get-or-create creates. The Spotify columns that only the HTTP handlers write (`selected_playlist_uri`, `selected_playlist_name`, `music_enabled`, `backend/routers/spotify.py:72-81`) are not modelled.

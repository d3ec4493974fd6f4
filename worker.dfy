/** The catalog sync worker: lists an account's Google Photos library, turns
    each listed entry into a `MediaItem`, and merges the items into the catalog
    in batches of `BATCH_SIZE`, committing each batch; `last_synced_at` is set
    only once the whole listing has been consumed.

    The pagination generator and the loop that consumes it are modelled one
    after the other: the listing is taken first, then consumed. Listing touches
    no table, so the database goes through the same states; a request that
    raises ends the consumption after the items of the pages already fetched,
    exactly where the generator would raise. */
module Worker {
  import opened Wrappers
  import opened Models
  import opened Auth
  import opened GooglePhotos

  const BATCH_SIZE := 100

  // ---------------------------------------------------------------------------
  // Merging by primary key
  // ---------------------------------------------------------------------------

  function Ids(items: seq<MediaItem>): set<string> {
    set i | 0 <= i < |items| :: items[i].id
  }

  /** No later item has the same id as `items[i]`. */
  predicate IsLastWithId(items: seq<MediaItem>, i: nat)
    requires i < |items|
  {
    forall j :: i < j < |items| ==> items[j].id != items[i].id
  }

  /** `db.merge(item)` for every item in order: each item is upserted under its
      id, so the catalog stays keyed by id. */
  function Merge(catalog: map<string, MediaItem>, items: seq<MediaItem>): (r: map<string, MediaItem>)
    ensures Keyed(catalog) ==> Keyed(r)
  {
    if items == [] then catalog
    else
      var last := items[|items| - 1];
      Merge(catalog, items[..|items| - 1])[last.id := last]
  }

  /** Merging only adds keys: the ids of the items. */
  lemma {:induction false} MergeKeys(catalog: map<string, MediaItem>, items: seq<MediaItem>)
    ensures Merge(catalog, items).Keys == catalog.Keys + Ids(items)
  {
    if items != [] {
      var init := items[..|items| - 1];
      MergeKeys(catalog, init);
      assert forall i :: 0 <= i < |init| ==> init[i] == items[i];
      assert Ids(items) == Ids(init) + {items[|items| - 1].id};
    }
  }

  /** Merging never removes a key. */
  lemma MergeGrows(catalog: map<string, MediaItem>, items: seq<MediaItem>)
    ensures catalog.Keys <= Merge(catalog, items).Keys
  {
    MergeKeys(catalog, items);
  }

  /** Merging a concatenation is merging one part after the other: committing
      the listing batch by batch gives the catalog that one merge of it gives. */
  lemma {:induction false} MergeAppend(catalog: map<string, MediaItem>, a: seq<MediaItem>, b: seq<MediaItem>)
    ensures Merge(catalog, a + b) == Merge(Merge(catalog, a), b)
    decreases |b|
  {
    if b == [] {
      assert a + b == a;
    } else {
      assert (a + b)[..|a + b| - 1] == a + b[..|b| - 1];
      assert (a + b)[|a + b| - 1] == b[|b| - 1];
      MergeAppend(catalog, a, b[..|b| - 1]);
    }
  }

  /** What the catalog holds after a merge: an id the items do not mention
      keeps its row (merging never deletes or alters other rows), and an id
      they mention holds the last item with that id. */
  lemma {:induction false} MergeContents(catalog: map<string, MediaItem>, items: seq<MediaItem>)
    ensures forall k :: k in catalog && k !in Ids(items) ==>
              k in Merge(catalog, items) && Merge(catalog, items)[k] == catalog[k]
    ensures forall i :: 0 <= i < |items| && IsLastWithId(items, i) ==>
              items[i].id in Merge(catalog, items) && Merge(catalog, items)[items[i].id] == items[i]
  {
    MergeKeys(catalog, items);
    if items != [] {
      var init := items[..|items| - 1];
      var last := items[|items| - 1];
      MergeContents(catalog, init);
      assert forall i :: 0 <= i < |init| ==> init[i] == items[i];
      forall i | 0 <= i < |items| && IsLastWithId(items, i)
        ensures Merge(catalog, items)[items[i].id] == items[i]
      {
        if i < |items| - 1 {
          assert IsLastWithId(init, i);
        }
      }
    }
  }

  /** The index of the last item with id `k`. */
  function LastIndexOf(items: seq<MediaItem>, k: string): (i: nat)
    requires k in Ids(items)
    ensures i < |items| && items[i].id == k && IsLastWithId(items, i)
  {
    var n := |items| - 1;
    if items[n].id == k then n
    else
      var init := items[..n];
      assert k in Ids(init) by {
        var j :| 0 <= j < |items| && items[j].id == k;
        assert init[j] == items[j];
      }
      LastIndexOf(init, k)
  }

  /** Upserting the same items twice gives the catalog that upserting them
      once gives. */
  lemma MergeIdempotent(catalog: map<string, MediaItem>, items: seq<MediaItem>)
    ensures Merge(Merge(catalog, items), items) == Merge(catalog, items)
  {
    var once := Merge(catalog, items);
    var twice := Merge(once, items);
    MergeKeys(catalog, items);
    MergeKeys(once, items);
    MergeContents(catalog, items);
    MergeContents(once, items);
    forall k | k in twice ensures k in once && twice[k] == once[k] {
      if k in Ids(items) {
        var i := LastIndexOf(items, k);
      }
    }
  }

  // ---------------------------------------------------------------------------
  // From listed entries to catalog rows
  // ---------------------------------------------------------------------------

  /** `MediaItem(id=item['id'], account_id=..., base_url=item['baseUrl'], ...)`:
      `id` and `baseUrl` are required (a missing one raises), the other fields
      may be absent, and the creation time is taken only when both
      `mediaMetadata` and its `creationTime` are present. */
  function ToMediaItem(raw: RawMediaItem, accountId: int): (m: Option<MediaItem>)
    ensures m.Some? <==> raw.id.Some? && raw.baseUrl.Some?
    ensures m.Some? ==> && m.value.id == raw.id.value && m.value.accountId == accountId
                        && m.value.baseUrl == raw.baseUrl.value
                        && m.value.mimeType == raw.mimeType && m.value.filename == raw.filename
    ensures m.Some? ==> (m.value.creationTime.Some? <==>
                           raw.mediaMetadata.Some? && raw.mediaMetadata.value.creationTime.Some?)
    ensures m.Some? && m.value.creationTime.Some? ==>
              m.value.creationTime == raw.mediaMetadata.value.creationTime
  {
    if raw.id.None? || raw.baseUrl.None? then None
    else
      var created := if raw.mediaMetadata.Some? then raw.mediaMetadata.value.creationTime else None;
      Some(MediaItem(raw.id.value, accountId, raw.baseUrl.value, raw.mimeType, raw.filename, created))
  }

  /** How many entries, from the start, convert before the first that raises. */
  function FirstUnconvertible(raws: seq<RawMediaItem>, accountId: int): (n: nat)
    ensures n <= |raws|
    ensures forall j :: 0 <= j < n ==> ToMediaItem(raws[j], accountId).Some?
    ensures n < |raws| ==> ToMediaItem(raws[n], accountId).None?
  {
    if raws == [] || ToMediaItem(raws[0], accountId).None? then 0
    else
      var m := FirstUnconvertible(raws[1..], accountId);
      assert forall j :: 1 <= j < m + 1 ==> raws[j] == raws[1..][j - 1];
      1 + m
  }

  /** The rows made from the first `n` entries, in order. */
  function Converted(raws: seq<RawMediaItem>, accountId: int, n: nat): (items: seq<MediaItem>)
    requires n <= FirstUnconvertible(raws, accountId)
    ensures |items| == n
  {
    if n == 0 then [] else Converted(raws, accountId, n - 1) + [ToMediaItem(raws[n - 1], accountId).value]
  }

  /** Row `j` is the conversion of entry `j`. */
  lemma {:induction false} ConvertedItems(raws: seq<RawMediaItem>, accountId: int, n: nat)
    requires n <= FirstUnconvertible(raws, accountId)
    ensures forall j :: 0 <= j < n ==> ToMediaItem(raws[j], accountId) == Some(Converted(raws, accountId, n)[j])
  {
    if n > 0 {
      ConvertedItems(raws, accountId, n - 1);
    }
  }

  /** Converting one more entry appends its row. */
  lemma ConvertedStep(raws: seq<RawMediaItem>, accountId: int, i: nat, saved: seq<MediaItem>, batch: seq<MediaItem>)
    requires i < FirstUnconvertible(raws, accountId)
    requires saved + batch == Converted(raws, accountId, i)
    ensures saved + (batch + [ToMediaItem(raws[i], accountId).value]) == Converted(raws, accountId, i + 1)
  {
    assert saved + (batch + [ToMediaItem(raws[i], accountId).value])
        == saved + batch + [ToMediaItem(raws[i], accountId).value];
  }

  /** The rows the worker builds from a listing before it stops. */
  function Consumed(raws: seq<RawMediaItem>, accountId: int): seq<MediaItem> {
    Converted(raws, accountId, FirstUnconvertible(raws, accountId))
  }

  // ---------------------------------------------------------------------------
  // Batches
  // ---------------------------------------------------------------------------

  function Flatten<T>(batches: seq<seq<T>>): seq<T> {
    if batches == [] then [] else Flatten(batches[..|batches| - 1]) + batches[|batches| - 1]
  }

  /** Every batch has exactly `BATCH_SIZE` items. */
  predicate AllFull<T>(batches: seq<seq<T>>) {
    batches == [] || (AllFull(batches[..|batches| - 1]) && |batches[|batches| - 1]| == BATCH_SIZE)
  }

  /** Every batch has `BATCH_SIZE` items except possibly the last, which is
      non-empty and no larger. */
  predicate WellBatched<T>(batches: seq<seq<T>>) {
    batches == [] || (AllFull(batches[..|batches| - 1]) && 0 < |batches[|batches| - 1]| <= BATCH_SIZE)
  }

  lemma {:induction false} AllFullMeans<T>(batches: seq<seq<T>>)
    ensures AllFull(batches) <==> forall b :: 0 <= b < |batches| ==> |batches[b]| == BATCH_SIZE
  {
    if batches != [] {
      var init := batches[..|batches| - 1];
      AllFullMeans(init);
      assert forall b :: 0 <= b < |init| ==> init[b] == batches[b];
    }
  }

  /** Full batches are well batched, and so are full batches followed by one
      non-empty batch of at most `BATCH_SIZE`. */
  lemma FullThenWellBatched<T>(batches: seq<seq<T>>, batch: seq<T>)
    requires AllFull(batches)
    ensures WellBatched(batches)
    ensures 0 < |batch| <= BATCH_SIZE ==> WellBatched(batches + [batch])
  {
    assert (batches + [batch])[..|batches|] == batches;
  }

  /** Committing one more batch merges it after the batches before it. */
  lemma CommitStep(catalog: map<string, MediaItem>, batches: seq<seq<MediaItem>>, batch: seq<MediaItem>)
    ensures (batches + [batch])[..|batches|] == batches
    ensures Flatten(batches + [batch]) == Flatten(batches) + batch
    ensures Merge(catalog, Flatten(batches + [batch])) == Merge(Merge(catalog, Flatten(batches)), batch)
  {
    assert (batches + [batch])[..|batches|] == batches;
    MergeAppend(catalog, Flatten(batches), batch);
  }

  /** The number of rows committed when the worker stops after consuming `n`:
      the full batches only. */
  function Committed(n: nat): (c: nat)
    ensures c <= n < c + BATCH_SIZE
    ensures c % BATCH_SIZE == 0
  {
    (n / BATCH_SIZE) * BATCH_SIZE
  }

  lemma CommittedOfFullBatches(q: nat, r: nat)
    requires r < BATCH_SIZE
    ensures Committed(q * BATCH_SIZE + r) == q * BATCH_SIZE
  {
  }

  /** `_save_batch(db, items)`: merges each item, then commits. */
  method SaveBatch(db: Database, items: seq<MediaItem>)
    modifies db`mediaItems
    ensures db.mediaItems == Merge(old(db.mediaItems), items)
  {
    for i := 0 to |items|
      invariant db.mediaItems == Merge(old(db.mediaItems), items[..i])
    {
      assert items[..i + 1][..i] == items[..i];
      db.mediaItems := db.mediaItems[items[i].id := items[i]];
    }
    assert items[..|items|] == items;
  }

  /** The rows a run commits from the listed entries `raws`: all of them when
      the listing finished and every entry converted; otherwise only the full
      batches of those converted before the listing or a conversion raised. */
  function CommittedRows(raws: seq<RawMediaItem>, complete: bool, accountId: int): (rows: seq<MediaItem>)
    ensures rows <= Consumed(raws, accountId)
    ensures |rows| % BATCH_SIZE != 0 ==> complete && |rows| == |raws|
  {
    var consumed := Consumed(raws, accountId);
    if complete && |consumed| == |raws| then consumed else consumed[..Committed(|consumed|)]
  }

  /** The loop of `sync_account_worker` over the listed entries: converts them
      in order into the open batch and commits the batch each time it is full.
      It stops at the end of the listing or at the first entry whose
      conversion raises (`failed`), and returns the committed batches and the
      open one. */
  method SaveListing(db: Database, raws: seq<RawMediaItem>, accountId: int)
    returns (failed: bool, batches: seq<seq<MediaItem>>, batch: seq<MediaItem>)
    modifies db`mediaItems
    ensures failed <==> FirstUnconvertible(raws, accountId) < |raws|
    ensures AllFull(batches)
    ensures |batch| < BATCH_SIZE
    ensures Flatten(batches) + batch == Consumed(raws, accountId)
    ensures db.mediaItems == Merge(old(db.mediaItems), Flatten(batches))
  {
    ghost var limit := FirstUnconvertible(raws, accountId);
    batches, batch := [], [];
    var i := 0;
    failed := false;
    while i < |raws| && !failed
      invariant i <= limit
      invariant failed ==> i == limit && i < |raws|
      invariant |batch| < BATCH_SIZE
      invariant AllFull(batches)
      invariant Flatten(batches) + batch == Converted(raws, accountId, i)
      invariant db.mediaItems == Merge(old(db.mediaItems), Flatten(batches))
      decreases |raws| - i, !failed
    {
      var item := ToMediaItem(raws[i], accountId);
      if item.None? {
        // `item['id']` or `item['baseUrl']` raised: the open batch is lost.
        failed := true;
      } else {
        ConvertedStep(raws, accountId, i, Flatten(batches), batch);
        batch := batch + [item.value];
        i := i + 1;
        if |batch| >= BATCH_SIZE {
          SaveBatch(db, batch);
          CommitStep(old(db.mediaItems), batches, batch);
          batches := batches + [batch];
          batch := [];
        }
      }
    }
  }

  /** The size of a sequence of full batches. */
  lemma {:induction false} FullBatchesSize(batches: seq<seq<MediaItem>>)
    requires AllFull(batches)
    ensures |Flatten(batches)| == |batches| * BATCH_SIZE
  {
    if batches != [] {
      FullBatchesSize(batches[..|batches| - 1]);
    }
  }

  /** Where the loop of `SaveListing` stops, the rows a run commits are all
      the converted entries when the listing finished, and the full batches
      otherwise. */
  lemma CommittedAtExit(raws: seq<RawMediaItem>, complete: bool, accountId: int,
                        batches: seq<seq<MediaItem>>, batch: seq<MediaItem>)
    requires Flatten(batches) + batch == Consumed(raws, accountId)
    requires AllFull(batches)
    requires |batch| < BATCH_SIZE
    ensures complete && FirstUnconvertible(raws, accountId) == |raws| ==>
              CommittedRows(raws, complete, accountId) == Flatten(batches) + batch
    ensures !(complete && FirstUnconvertible(raws, accountId) == |raws|) ==>
              CommittedRows(raws, complete, accountId) == Flatten(batches)
  {
    var saved := Flatten(batches);
    assert (saved + batch)[..|saved|] == saved;
    FullBatchesSize(batches);
    CommittedOfFullBatches(|batches|, |batch|);
  }

  /** How a run ended. The source logs these and returns nothing. */
  datatype SyncOutcome = AccountNotFound | NoCredentials | Aborted | Finished(count: nat)

  /** The rows keep their order, ids, emails and active flags. */
  predicate SameIdentity(before: seq<Account>, after: seq<Account>) {
    && |after| == |before|
    && forall j :: 0 <= j < |before| ==>
         after[j].id == before[j].id && after[j].email == before[j].email
         && after[j].isActive == before[j].isActive
  }

  /** As `SameIdentity`, and only the row of `accountId` may change at all. */
  predicate OnlyRowOfChanged(before: seq<Account>, after: seq<Account>, accountId: int) {
    && SameIdentity(before, after)
    && forall j :: 0 <= j < |before| && before[j].id != accountId ==> after[j] == before[j]
  }

  /** The account table after a run that finished: `last_synced_at` of row
      `idx` set to `now`. */
  function MarkSynced(accounts: seq<Account>, idx: nat, now: Time): (r: seq<Account>)
    requires idx < |accounts|
    ensures OnlyRowOfChanged(accounts, r, accounts[idx].id)
    ensures r[idx].lastSyncedAt == Some(now)
    ensures r[idx].credentialsJson == accounts[idx].credentialsJson
    ensures UniqueIds(accounts) && UniqueEmails(accounts) ==> UniqueIds(r) && UniqueEmails(r)
  {
    accounts[idx := accounts[idx].(lastSyncedAt := Some(now))]
  }

  /** The effect of one run: how it ended, the account table after it, and the
      rows it committed to the catalog, in order. */
  datatype Run = Run(outcome: SyncOutcome, accounts: seq<Account>, committed: seq<MediaItem>)

  /** What `sync_account_worker` does, as a function of the account table and
      of the outside world's answers. Whatever happens, only the account's own
      row can change and the keys stay unique. */
  function SyncRun(accounts: seq<Account>, accountId: int, google: GoogleAuth,
                   responses: seq<Page<RawMediaItem>>, now: Time): (run: Run)
    requires UniqueIds(accounts) && UniqueEmails(accounts)
    ensures UniqueIds(run.accounts) && UniqueEmails(run.accounts)
    ensures OnlyRowOfChanged(accounts, run.accounts, accountId)
  {
    match Find(accounts, ById(accountId))
    case None => Run(AccountNotFound, accounts, [])
    case Some(idx) =>
      var (lookup, after) := LookupCredentials(accounts, accountId, google);
      if !lookup.Found? then Run(Aborted, after, [])
      else
        var listing := Paginate(responses);
        var rows := CommittedRows(listing.items, listing.complete, accountId);
        if listing.complete && FirstUnconvertible(listing.items, accountId) == |listing.items| then
          Run(Finished(|rows|), MarkSynced(after, idx, now), rows)
        else
          Run(Aborted, after, rows)
  }

  /** A run whose account is unknown or whose credentials do not load changes
      nothing. A run finishes exactly when the account exists, its credentials load,
      the listing ends at a last page and every listed entry converts; then
      all listed entries are committed and `last_synced_at` is `now`. Any
      other run leaves every `last_synced_at` as it was and commits only full
      batches of a prefix of the converted listing. */
  lemma SyncRunOutcome(accounts: seq<Account>, accountId: int, google: GoogleAuth,
                       responses: seq<Page<RawMediaItem>>, now: Time)
    requires UniqueIds(accounts) && UniqueEmails(accounts)
    ensures var run := SyncRun(accounts, accountId, google, responses, now);
            var listing := Paginate(responses);
            && run.outcome != NoCredentials
            && (run.outcome == AccountNotFound <==> Find(accounts, ById(accountId)).None?)
            && (run.outcome == AccountNotFound ==> run.accounts == accounts && run.committed == [])
            && (!LookupCredentials(accounts, accountId, google).0.Found? ==>
                  run.accounts == accounts && run.committed == [])
            && (run.outcome.Finished? <==>
                  && Find(accounts, ById(accountId)).Some?
                  && LookupCredentials(accounts, accountId, google).0.Found?
                  && listing.complete
                  && FirstUnconvertible(listing.items, accountId) == |listing.items|)
            && (run.outcome.Finished? ==>
                  && run.committed == Consumed(listing.items, accountId)
                  && run.outcome.count == |listing.items|
                  && run.accounts[Find(accounts, ById(accountId)).value].lastSyncedAt == Some(now))
            && (!run.outcome.Finished? ==>
                  && (forall j :: 0 <= j < |accounts| ==> run.accounts[j].lastSyncedAt == accounts[j].lastSyncedAt)
                  && |run.committed| % BATCH_SIZE == 0)
            && run.committed <= Consumed(listing.items, accountId)
  {
  }

  /** Credentials that do not load, or that need a refresh which fails, abort
      the run before anything is listed: no row is committed and the account
      table, `last_synced_at` included, is left as it was. */
  lemma CredentialFailureAborts(accounts: seq<Account>, accountId: int, google: GoogleAuth,
                                responses: seq<Page<RawMediaItem>>, now: Time)
    requires UniqueIds(accounts) && UniqueEmails(accounts)
    requires Find(accounts, ById(accountId)).Some?
    ensures var loaded := google.load(accounts[Find(accounts, ById(accountId)).value].credentialsJson);
            var run := SyncRun(accounts, accountId, google, responses, now);
            loaded.None? || (NeedsRefresh(loaded.value) && google.refresh(loaded.value).None?) ==>
              run == Run(Aborted, accounts, [])
  {
  }

  /** `sync_account_worker(account_id)`. `google` stands for Google's credential
      library, `responses` for the photo library's answers to the listing, and
      `now` for `datetime.now()`. Returns how the run ended and the batches it
      committed, in order: every batch but the last is full, and the last is
      partial only when the run finished. */
  method SyncAccountWorker(db: Database, accountId: int, google: GoogleAuth,
                           responses: seq<Page<RawMediaItem>>, now: Time)
    returns (outcome: SyncOutcome, batches: seq<seq<MediaItem>>)
    requires db.Valid()
    modifies db`accounts, db`mediaItems
    ensures db.Valid()
    ensures Run(outcome, db.accounts, Flatten(batches))
              == SyncRun(old(db.accounts), accountId, google, responses, now)
    ensures WellBatched(batches)
    ensures !outcome.Finished? ==> AllFull(batches)
    ensures db.mediaItems == Merge(old(db.mediaItems), Flatten(batches))
  {
    var found := Find(db.accounts, ById(accountId));
    if found.None? {
      return AccountNotFound, [];
    }
    var idx := found.value;
    var lookup := GetCredentialsForAccount(db, accountId, google);
    if !lookup.Found? {
      // An unknown account was excluded above, so this is the exception path.
      return Aborted, [];
    }
    var raws, requests, complete := ListMediaItems(responses, DEFAULT_PAGE_SIZE);
    var failed, batch;
    failed, batches, batch := SaveListing(db, raws, accountId);
    CommittedAtExit(raws, complete, accountId, batches, batch);
    FullThenWellBatched(batches, batch);
    if failed || !complete {
      // An exception ends the run: committed batches stay, the account is untouched.
      return Aborted, batches;
    }
    if |batch| > 0 {
      SaveBatch(db, batch);
      CommitStep(old(db.mediaItems), batches, batch);
      batches := batches + [batch];
    }
    db.accounts := MarkSynced(db.accounts, idx, now);
    outcome := Finished(|raws|);
  }

  /** The ids of the active accounts, in table order. */
  function ActiveIds(accounts: seq<Account>): (ids: seq<int>)
    ensures forall k :: 0 <= k < |ids| ==> IsActiveId(accounts, ids[k])
    ensures forall j :: 0 <= j < |accounts| && accounts[j].isActive ==> accounts[j].id in ids
    ensures UniqueIds(accounts) ==> forall i, j :: 0 <= i < j < |ids| ==> ids[i] != ids[j]
  {
    if accounts == [] then []
    else
      var rest := ActiveIds(accounts[1..]);
      assert forall j :: 1 <= j < |accounts| ==> accounts[j] == accounts[1..][j - 1];
      forall x | IsActiveId(accounts[1..], x) ensures IsActiveId(accounts, x) {
        var j :| 0 <= j < |accounts[1..]| && accounts[1..][j].isActive && accounts[1..][j].id == x;
        assert accounts[j + 1] == accounts[1..][j];
      }
      if accounts[0].isActive then
        assert UniqueIds(accounts) ==> accounts[0].id !in rest by {
          if UniqueIds(accounts) {
            forall k | 0 <= k < |rest| ensures rest[k] != accounts[0].id {
              var j :| 0 <= j < |accounts[1..]| && accounts[1..][j].isActive && accounts[1..][j].id == rest[k];
              assert accounts[j + 1] == accounts[1..][j];
            }
          }
        }
        [accounts[0].id] + rest
      else rest
  }

  /** `x` is the id of an active account. */
  predicate IsActiveId(accounts: seq<Account>, x: int) {
    exists j :: 0 <= j < |accounts| && accounts[j].isActive && accounts[j].id == x
  }

  /** The rows of inactive accounts are as they were. */
  predicate InactiveUnchanged(before: seq<Account>, after: seq<Account>) {
    |after| == |before| && forall j :: 0 <= j < |before| && !before[j].isActive ==> after[j] == before[j]
  }

  /** Syncing an active account keeps the rows of the inactive ones. */
  lemma SyncKeepsInactive(a0: seq<Account>, a: seq<Account>, a': seq<Account>, id: int)
    requires UniqueIds(a0) && IsActiveId(a0, id)
    requires SameIdentity(a0, a) && InactiveUnchanged(a0, a)
    requires OnlyRowOfChanged(a, a', id)
    ensures SameIdentity(a0, a') && InactiveUnchanged(a0, a')
  {
    var j0 :| 0 <= j0 < |a0| && a0[j0].isActive && a0[j0].id == id;
    forall j | 0 <= j < |a0| && !a0[j].isActive ensures a'[j] == a0[j] {
      assert j != j0;
      assert a[j].id != a0[j0].id;
    }
  }

  /** The account table and the catalog after syncing the accounts `ids`, one
      after another: each run is `SyncRun` on the table the previous runs
      left, and its committed rows are merged into the catalog. */
  function SyncAll(accounts: seq<Account>, catalog: map<string, MediaItem>, ids: seq<int>, google: GoogleAuth,
                   responsesFor: int -> seq<Page<RawMediaItem>>, clock: int -> Time)
    : (st: (seq<Account>, map<string, MediaItem>))
    requires UniqueIds(accounts) && UniqueEmails(accounts)
    ensures UniqueIds(st.0) && UniqueEmails(st.0)
    ensures Keyed(catalog) ==> Keyed(st.1)
    decreases |ids|
  {
    if ids == [] then (accounts, catalog)
    else
      var (table, rows) := SyncAll(accounts, catalog, ids[..|ids| - 1], google, responsesFor, clock);
      var id := ids[|ids| - 1];
      var run := SyncRun(table, id, google, responsesFor(id), clock(id));
      (run.accounts, Merge(rows, run.committed))
  }

  /** Syncing any sequence of active accounts keeps every row's id, email and
      active flag, leaves the inactive accounts' rows as they were, and never
      deletes a catalog row. */
  lemma {:induction false} SyncAllKeeps(accounts: seq<Account>, catalog: map<string, MediaItem>, ids: seq<int>,
                                        google: GoogleAuth, responsesFor: int -> seq<Page<RawMediaItem>>,
                                        clock: int -> Time)
    requires UniqueIds(accounts) && UniqueEmails(accounts)
    requires forall k :: 0 <= k < |ids| ==> IsActiveId(accounts, ids[k])
    ensures var st := SyncAll(accounts, catalog, ids, google, responsesFor, clock);
            && SameIdentity(accounts, st.0) && InactiveUnchanged(accounts, st.0)
            && catalog.Keys <= st.1.Keys
    decreases |ids|
  {
    if ids != [] {
      var init := ids[..|ids| - 1];
      var id := ids[|ids| - 1];
      SyncAllKeeps(accounts, catalog, init, google, responsesFor, clock);
      var (table, rows) := SyncAll(accounts, catalog, init, google, responsesFor, clock);
      var run := SyncRun(table, id, google, responsesFor(id), clock(id));
      SyncKeepsInactive(accounts, table, run.accounts, id);
      MergeGrows(rows, run.committed);
    }
  }

  /** `sync_all_accounts_worker()`: runs `sync_account_worker` for each active
      account, one after the other, in table order. `responsesFor` and `clock`
      give the photo library's answers and the time for each account's run.
      Returns the ids it synced, in order. */
  method SyncAllAccountsWorker(db: Database, google: GoogleAuth,
                               responsesFor: int -> seq<Page<RawMediaItem>>, clock: int -> Time)
    returns (synced: seq<int>)
    requires db.Valid()
    modifies db`accounts, db`mediaItems
    ensures db.Valid()
    ensures synced == ActiveIds(old(db.accounts))
    ensures (db.accounts, db.mediaItems)
              == SyncAll(old(db.accounts), old(db.mediaItems), synced, google, responsesFor, clock)
    ensures SameIdentity(old(db.accounts), db.accounts)
    ensures InactiveUnchanged(old(db.accounts), db.accounts)
    ensures old(db.mediaItems).Keys <= db.mediaItems.Keys
  {
    var ids := ActiveIds(db.accounts);
    synced := [];
    for k := 0 to |ids|
      invariant db.Valid()
      invariant synced == ids[..k]
      invariant (db.accounts, db.mediaItems)
                  == SyncAll(old(db.accounts), old(db.mediaItems), synced, google, responsesFor, clock)
    {
      var outcome, batches := SyncAccountWorker(db, ids[k], google, responsesFor(ids[k]), clock(ids[k]));
      synced := synced + [ids[k]];
      assert synced[..k] == ids[..k];
    }
    assert synced == ids;
    SyncAllKeeps(old(db.accounts), old(db.mediaItems), ids, google, responsesFor, clock);
  }
}

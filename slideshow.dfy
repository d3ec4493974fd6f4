/** The slideshow controller: a background loop that keeps choosing a random
    catalog item, turns it into a signed B2 download URL, and publishes that
    URL with its file name for the display to poll. The thread is abstracted
    to a liveness flag, one pass of the loop is `Step`, and everything the
    loop asks of the database, the random choice and b2sdk is a parameter. */
module Slideshow {
  import opened Wrappers
  import opened B2

  /** Seconds between pictures when `start` is given no interval. */
  const DEFAULT_INTERVAL := 20
  /** Seconds the loop sleeps when the catalog has nothing to show. */
  const EMPTY_CATALOG_DELAY := 5
  /** What `_last_error` holds after a critical error: this prefix and the message. */
  const ERROR_PREFIX := "Error: "

  /** `_current_image_data`: what the display polls. */
  datatype ImageData = ImageData(url: Option<string>, filename: Option<string>, interval: int, showFilename: bool)

  const InitialImage := ImageData(None, None, DEFAULT_INTERVAL, false)

  /** A loop thread: the interval it was started with, and whether it is alive. */
  datatype LoopThread = LoopThread(interval: int, alive: bool)

  /** The random catalog pick: no item, an item with its B2 account id (`None`
      for a missing value) and file name, or a query that raised. */
  datatype Pick = NoItem | Item(b2AccountId: Option<int>, fileName: string) | QueryRaised

  /** The B2 account row looked up by id: its credentials and bucket. */
  datatype B2Account = B2Account(keyId: Option<string>, applicationKey: Option<string>, bucketName: string)

  /** The answer of the account lookup: no row, the row, or a query that raised. */
  datatype Lookup = Missing | Row(account: B2Account) | LookupRaised

  /** What one pass of the loop draws from the database. */
  datatype Draw = Draw(pick: Pick, lookup: Lookup)

  /** b2sdk as the loop sees it: whether `authorize_account` accepts a key
      pair, and the SDK state behind each client. */
  datatype B2Env = B2Env(authorize: (string, string) -> bool, sdkFor: B2Client -> B2Sdk)

  /** The part of the controller one pass of the loop may change. */
  datatype LoopState = LoopState(clients: map<int, B2Client>, image: ImageData)

  /** What the loop does after a pass. */
  datatype LoopControl = Sleep(seconds: int) | Wait(seconds: int) | Exit

  /** `if media_item.b2_account_id:`: present and non-zero; an item without an
      account id, or with id 0, is skipped like an empty catalog. */
  predicate HasAccount(pick: Pick)
    ensures !pick.Item? ==> !HasAccount(pick)
    ensures pick.Item? && (pick.b2AccountId.None? || pick.b2AccountId == Some(0)) ==> !HasAccount(pick)
    ensures pick.Item? && pick.b2AccountId.Some? && pick.b2AccountId.value != 0 ==> HasAccount(pick)
  {
    pick.Item? && pick.b2AccountId.Some? && pick.b2AccountId.value != 0
  }

  /** The client a pass uses for account `id`: the cached one, or a new one
      when b2sdk accepts the row's credentials. */
  function ClientFor(clients: map<int, B2Client>, id: int, account: B2Account, env: B2Env): (c: Option<B2Client>)
    ensures id in clients ==> c == Some(clients[id])
    ensures id !in clients ==> c == NewB2Client(account.keyId, account.applicationKey, env.authorize)
  {
    if id in clients then Some(clients[id])
    else NewB2Client(account.keyId, account.applicationKey, env.authorize)
  }

  /** The body of one pass inside its `try`: every exception it raises is
      swallowed, leaving whatever was already changed. A client that was
      created stays cached even when the URL then fails. */
  function Iterate(s: LoopState, d: Draw, env: B2Env): (r: LoopState)
    // an entry of the cache is reused and never replaced
    ensures forall id :: id in s.clients ==> id in r.clients && r.clients[id] == s.clients[id]
    // at most the item's account is added
    ensures forall id :: id in r.clients ==> id in s.clients || (HasAccount(d.pick) && id == d.pick.b2AccountId.value)
    // a pass without a usable item changes nothing
    ensures !HasAccount(d.pick) || !d.lookup.Row? ==> r == s
    // url and filename change together, and nothing else in the record does
    ensures r.image == s.image || r.image == s.image.(url := r.image.url, filename := r.image.filename)
    ensures r.image != s.image ==>
              var id := d.pick.b2AccountId.value;
              && HasAccount(d.pick) && d.lookup.Row? && id in r.clients
              && r.image.filename == Some(d.pick.fileName) && r.image.url.Some?
              && r.image.url == GetDownloadUrl(r.clients[id], env.sdkFor(r.clients[id]),
                                               d.lookup.account.bucketName, d.pick.fileName,
                                               DEFAULT_VALID_DURATION_SECONDS)
    // and they do change whenever a client is at hand and a token is issued
    ensures HasAccount(d.pick) && d.lookup.Row? ==>
              var id := d.pick.b2AccountId.value;
              var c := ClientFor(s.clients, id, d.lookup.account, env);
              c.Some? && GetDownloadUrl(c.value, env.sdkFor(c.value), d.lookup.account.bucketName,
                                        d.pick.fileName, DEFAULT_VALID_DURATION_SECONDS).Some?
              ==> r.image.filename == Some(d.pick.fileName) && r.image.url.Some?
    // exactly: the client at hand joins the cache (even when its URL then
    // fails), and its URL for the item is published when one is issued
    ensures HasAccount(d.pick) && d.lookup.Row? ==>
              var id := d.pick.b2AccountId.value;
              var c := ClientFor(s.clients, id, d.lookup.account, env);
              && (c.None? ==> r == s)
              && (c.Some? ==>
                    var u := GetDownloadUrl(c.value, env.sdkFor(c.value), d.lookup.account.bucketName,
                                            d.pick.fileName, DEFAULT_VALID_DURATION_SECONDS);
                    && r.clients == s.clients[id := c.value]
                    && r.image == if u.Some? then s.image.(url := u, filename := Some(d.pick.fileName)) else s.image)
  {
    if !HasAccount(d.pick) || !d.lookup.Row? then s
    else
      var id := d.pick.b2AccountId.value;
      var account := d.lookup.account;
      match ClientFor(s.clients, id, account, env)
      case None => s
      case Some(client) =>
        var clients := s.clients[id := client];
        match GetDownloadUrl(client, env.sdkFor(client), account.bucketName, d.pick.fileName,
                             DEFAULT_VALID_DURATION_SECONDS)
        case None => LoopState(clients, s.image)
        case Some(url) => LoopState(clients, s.image.(url := Some(url), filename := Some(d.pick.fileName)))
  }

  /** Several passes in a row, while no stop is requested. */
  function IterateAll(s: LoopState, draws: seq<Draw>, env: B2Env): LoopState
    decreases |draws|
  {
    if draws == [] then s else IterateAll(Iterate(s, draws[0], env), draws[1..], env)
  }

  /** The account ids a run of passes can add to the cache. */
  function AccountIds(draws: seq<Draw>): (ids: set<int>)
    ensures forall k :: 0 <= k < |draws| && HasAccount(draws[k].pick) ==> draws[k].pick.b2AccountId.value in ids
    ensures forall id :: id in ids ==> exists k :: 0 <= k < |draws| && HasAccount(draws[k].pick) && draws[k].pick.b2AccountId.value == id
  {
    set k | 0 <= k < |draws| && HasAccount(draws[k].pick) :: draws[k].pick.b2AccountId.value
  }

  /** However many passes run, a cached client is never replaced, the cache
      only gains the accounts of the items drawn, and the published url and
      filename stay paired. */
  lemma {:induction false} IterateAllKeepsCache(s: LoopState, draws: seq<Draw>, env: B2Env)
    ensures var r := IterateAll(s, draws, env);
            && (forall id :: id in s.clients ==> id in r.clients && r.clients[id] == s.clients[id])
            && r.clients.Keys <= s.clients.Keys + AccountIds(draws)
            && r.image.interval == s.image.interval && r.image.showFilename == s.image.showFilename
            && ((s.image.url.Some? <==> s.image.filename.Some?) ==> (r.image.url.Some? <==> r.image.filename.Some?))
    decreases |draws|
  {
    if draws != [] {
      var t := Iterate(s, draws[0], env);
      IterateAllKeepsCache(t, draws[1..], env);
      assert AccountIds(draws[1..]) <= AccountIds(draws) by {
        forall id | id in AccountIds(draws[1..])
          ensures id in AccountIds(draws)
        {
          var k :| 0 <= k < |draws[1..]| && HasAccount(draws[1..][k].pick) && draws[1..][k].pick.b2AccountId.value == id;
          assert draws[k + 1] == draws[1..][k];
        }
      }
    }
  }

  class SlideshowController {
    /** `_stop_event`. */
    var stopRequested: bool
    /** `_thread`. */
    var thread: Option<LoopThread>
    /** `_b2_clients`: one client per B2 account id. */
    var clients: map<int, B2Client>
    /** `_current_image_data`. */
    var image: ImageData
    /** `_last_error`. */
    var lastError: Option<string>
    /** How many loops `start` has launched. */
    ghost var launches: nat

    /** The published url and filename are both set or both unset, and a
        loop runs with the interval the record shows. */
    ghost predicate Valid()
      reads this
    {
      && (image.url.Some? <==> image.filename.Some?)
      && (thread.Some? ==> thread.value.interval == image.interval)
    }

    predicate Alive()
      reads this
    {
      thread.Some? && thread.value.alive
    }

    /** A fresh controller: no thread, no error, an empty cache, and nothing
        published yet. */
    constructor()
      ensures Valid()
      ensures !stopRequested && thread == None && lastError == None && clients == map[]
      ensures image == InitialImage && launches == 0
    {
      stopRequested := false;
      thread := None;
      lastError := None;
      clients := map[];
      image := InitialImage;
      launches := 0;
    }

    /** `is_running`: a thread exists and is alive. */
    method IsRunning() returns (running: bool)
      ensures running <==> thread.Some? && thread.value.alive
    {
      running := thread.Some? && thread.value.alive;
    }

    /** `start(interval, show_filename)`: nothing at all while a loop is alive;
        otherwise clear the stop request, record the settings and launch one
        loop with this interval. */
    method Start(interval: int := DEFAULT_INTERVAL, showFilename: bool := false)
      requires Valid()
      modifies this
      ensures Valid()
      ensures old(Alive()) ==>
                && stopRequested == old(stopRequested) && thread == old(thread) && image == old(image)
                && launches == old(launches)
      ensures !old(Alive()) ==>
                && !stopRequested
                && image == old(image).(interval := interval, showFilename := showFilename)
                && thread == Some(LoopThread(interval, true))
                && launches == old(launches) + 1
      ensures clients == old(clients) && lastError == old(lastError)
    {
      if thread.Some? && thread.value.alive {
        return;
      }
      stopRequested := false;
      image := image.(interval := interval);
      image := image.(showFilename := showFilename);
      thread := Some(LoopThread(interval, true));
      launches := launches + 1;
    }

    /** `stop()`: request the stop, wait a bounded time for the loop, and
        empty the cache. Whether the loop ended within the wait is
        `joinedInTime`; a loop that did not stays alive. */
    method Stop(joinedInTime: bool)
      requires Valid()
      modifies this`stopRequested, this`thread, this`clients
      ensures Valid()
      ensures stopRequested && clients == map[]
      ensures old(thread).None? ==> thread == None
      ensures old(thread).Some? ==>
                thread == Some(old(thread).value.(alive := old(thread).value.alive && !joinedInTime))
    {
      stopRequested := true;
      if thread.Some? {
        thread := Some(thread.value.(alive := thread.value.alive && !joinedInTime));
      }
      clients := map[];
    }

    /** `get_current_image_data`. */
    method GetCurrentImageData() returns (data: ImageData)
      requires Valid()
      ensures data == image
      ensures data.url.Some? <==> data.filename.Some?
    {
      data := image;
    }

    /** `get_last_error`. */
    method GetLastError() returns (error: Option<string>)
      ensures error == lastError
    {
      error := lastError;
    }

    /** The body of the inner `try`: reuse or create the account's client,
        then publish the url and filename. */
    method RunPass(d: Draw, env: B2Env)
      modifies this`clients, this`image
      ensures LoopState(clients, image) == Iterate(LoopState(old(clients), old(image)), d, env)
    {
      if !HasAccount(d.pick) || !d.lookup.Row? {
        return;
      }
      var id := d.pick.b2AccountId.value;
      var account := d.lookup.account;
      if id !in clients {
        var created := NewB2Client(account.keyId, account.applicationKey, env.authorize);
        if created.None? {
          return;
        }
        clients := clients[id := created.value];
      }
      var client := clients[id];
      var url := GetDownloadUrl(client, env.sdkFor(client), account.bucketName, d.pick.fileName,
                                DEFAULT_VALID_DURATION_SECONDS);
      if url.Some? {
        image := image.(url := url);
        image := image.(filename := Some(d.pick.fileName));
      }
    }

    /** One pass of `_run_loop` in the live thread. A requested stop ends the
        loop. Opening the database session is the one step outside the inner
        `try`: when it raises (`sessionError`) the loop records the message
        and ends. Otherwise the pass runs `Iterate`, swallowing its errors,
        and the loop sleeps when the catalog was empty or waits out the
        interval. */
    method Step(d: Draw, env: B2Env, sessionError: Option<string>) returns (control: LoopControl)
      requires Valid() && Alive()
      modifies this`thread, this`clients, this`image, this`lastError
      ensures Valid()
      ensures old(stopRequested) ==>
                && control == Exit && thread == Some(old(thread).value.(alive := false))
                && clients == old(clients) && image == old(image) && lastError == old(lastError)
      ensures !old(stopRequested) && sessionError.Some? ==>
                && control == Exit && thread == Some(old(thread).value.(alive := false))
                && lastError == Some(ERROR_PREFIX + sessionError.value)
                && clients == old(clients) && image == old(image)
      ensures !old(stopRequested) && sessionError.None? ==>
                && LoopState(clients, image) == Iterate(LoopState(old(clients), old(image)), d, env)
                && thread == old(thread) && lastError == old(lastError)
                && control == if d.pick.NoItem? then Sleep(EMPTY_CATALOG_DELAY) else Wait(thread.value.interval)
    {
      if stopRequested {
        thread := Some(thread.value.(alive := false));
        return Exit;
      }
      if sessionError.Some? {
        lastError := Some(ERROR_PREFIX + sessionError.value);
        thread := Some(thread.value.(alive := false));
        return Exit;
      }
      if d.pick.NoItem? {
        return Sleep(EMPTY_CATALOG_DELAY);
      }
      RunPass(d, env);
      return Wait(thread.value.interval);
    }
  }
}

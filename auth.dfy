/** Google account credentials: loading (and refreshing) the credentials of a
    stored account, and creating or updating the account row after an OAuth
    sign-in. Google's client library is a parameter: loading credentials from
    the stored JSON, refreshing them, and serialising them back. */
module Auth {
  import opened Wrappers
  import opened Models

  /** The Google credentials object, as far as this code looks at it; `json`
      is what `creds.to_json()` returns. */
  datatype Credentials = Credentials(json: string, expired: bool, refreshToken: Option<string>)

  /** `Credentials.from_authorized_user_info(json.loads(..))` (`None` when the
      stored JSON does not load) and `creds.refresh(Request())` (`None` when the
      refresh raises). */
  datatype GoogleAuth = GoogleAuth(
    load: string -> Option<Credentials>,
    refresh: Credentials -> Option<Credentials>)

  /** What `get_credentials_for_account` ends in: `None` for an unknown
      account, the credentials, or an exception. */
  datatype CredentialsLookup = NoAccount | Found(creds: Credentials) | Raised

  /** `creds.expired and creds.refresh_token`: unexpired credentials are never
      refreshed, and neither are expired ones whose refresh token is missing
      or empty. */
  predicate NeedsRefresh(c: Credentials)
    ensures !c.expired ==> !NeedsRefresh(c)
    ensures c.refreshToken.None? || c.refreshToken == Some("") ==> !NeedsRefresh(c)
    ensures c.expired && c.refreshToken.Some? && c.refreshToken.value != "" ==> NeedsRefresh(c)
  {
    c.expired && Truthy(c.refreshToken)
  }

  /** Only the credentials of the account with id `accountId` may differ. */
  predicate OnlyCredentialsChanged(before: seq<Account>, after: seq<Account>, accountId: int) {
    && |after| == |before|
    && forall j :: 0 <= j < |before| ==>
         after[j] == before[j].(credentialsJson := after[j].credentialsJson)
         && (before[j].id != accountId ==> after[j] == before[j])
  }

  /** `get_credentials_for_account`: the outcome and the account table after it. */
  function LookupCredentials(accounts: seq<Account>, accountId: int, google: GoogleAuth)
    : (res: (CredentialsLookup, seq<Account>))
    ensures Find(accounts, ById(accountId)).None? ==> res == (NoAccount, accounts)
    ensures OnlyCredentialsChanged(accounts, res.1, accountId)
    ensures Find(accounts, ById(accountId)).Some? ==>
              var i := Find(accounts, ById(accountId)).value;
              var loaded := google.load(accounts[i].credentialsJson);
              // credentials that need no refresh are returned as loaded, and nothing is written
              && (loaded.Some? && !NeedsRefresh(loaded.value) ==> res == (Found(loaded.value), accounts))
              // the row changes only through a refresh, and then holds the refreshed credentials
              && (res.1 != accounts ==>
                    && loaded.Some? && NeedsRefresh(loaded.value)
                    && google.refresh(loaded.value).Some?
                    && res.0 == Found(google.refresh(loaded.value).value)
                    && res.1 == accounts[i := accounts[i].(credentialsJson := res.0.creds.json)])
              // stored credentials that do not load raise, and nothing is written
              && (loaded.None? ==> res == (Raised, accounts))
              // a needed refresh that fails raises, and nothing is written
              && (loaded.Some? && NeedsRefresh(loaded.value) && google.refresh(loaded.value).None? ==>
                    res == (Raised, accounts))
              // a refresh that succeeds is returned and always written back
              && (loaded.Some? && NeedsRefresh(loaded.value) && google.refresh(loaded.value).Some? ==>
                    && res.0 == Found(google.refresh(loaded.value).value)
                    && res.1[i].credentialsJson == google.refresh(loaded.value).value.json)
  {
    match Find(accounts, ById(accountId))
    case None => (NoAccount, accounts)
    case Some(i) =>
      match google.load(accounts[i].credentialsJson)
      case None => (Raised, accounts)
      case Some(creds) =>
        if !NeedsRefresh(creds) then (Found(creds), accounts)
        else
          match google.refresh(creds)
          case None => (Raised, accounts)
          case Some(renewed) => (Found(renewed), accounts[i := accounts[i].(credentialsJson := renewed.json)])
  }

  /** `get_credentials_for_account(db, account_id)`. */
  method GetCredentialsForAccount(db: Database, accountId: int, google: GoogleAuth)
    returns (r: CredentialsLookup)
    requires db.Valid()
    modifies db`accounts
    ensures db.Valid()
    ensures (r, db.accounts) == LookupCredentials(old(db.accounts), accountId, google)
  {
    var found := Find(db.accounts, ById(accountId));
    if found.None? {
      return NoAccount;
    }
    var i := found.value;
    var account := db.accounts[i];
    var creds := google.load(account.credentialsJson);
    if creds.None? {
      return Raised;
    }
    if creds.value.expired && Truthy(creds.value.refreshToken) {
      var renewed := google.refresh(creds.value);
      if renewed.None? {
        return Raised;
      }
      db.accounts := db.accounts[i := account.(credentialsJson := renewed.value.json)];
      return Found(renewed.value);
    }
    return Found(creds.value);
  }

  /** The id the database allocates to a new account: one above every id in use. */
  function NextId(accounts: seq<Account>): (n: int)
    ensures n >= 1
    ensures forall j :: 0 <= j < |accounts| ==> accounts[j].id < n
  {
    if accounts == [] then 1
    else
      var rest := NextId(accounts[1..]);
      assert forall j :: 1 <= j < |accounts| ==> accounts[j] == accounts[1..][j - 1];
      if accounts[0].id + 1 > rest then accounts[0].id + 1 else rest
  }

  /** The account table after `create_or_update_account` for `email`: a new
      email adds exactly one active row; a known email has its credentials
      replaced and is reactivated in place. Ids and emails stay unique. */
  function UpsertByEmail(accounts: seq<Account>, email: string, credentialsJson: string)
    : (r: seq<Account>)
    requires UniqueIds(accounts) && UniqueEmails(accounts)
    ensures UniqueIds(r) && UniqueEmails(r)
    ensures Find(r, ByEmail(email)).Some?
    ensures var i := Find(r, ByEmail(email)).value;
            r[i].credentialsJson == credentialsJson && r[i].isActive
    ensures Find(accounts, ByEmail(email)).None? ==>
              r == accounts + [NewAccount(NextId(accounts), email, credentialsJson)]
    ensures Find(accounts, ByEmail(email)).Some? ==>
              var i := Find(accounts, ByEmail(email)).value;
              && |r| == |accounts|
              && r[i] == accounts[i].(credentialsJson := credentialsJson, isActive := true)
              && forall j :: 0 <= j < |accounts| && j != i ==> r[j] == accounts[j]
  {
    match Find(accounts, ByEmail(email))
    case None =>
      var r := accounts + [NewAccount(NextId(accounts), email, credentialsJson)];
      assert Find(r, ByEmail(email)) == Some(|accounts|) by {
        FindAppend(accounts, NewAccount(NextId(accounts), email, credentialsJson), ByEmail(email));
      }
      r
    case Some(i) =>
      var r := accounts[i := accounts[i].(credentialsJson := credentialsJson, isActive := true)];
      assert r[i].email == email;
      assert Find(r, ByEmail(email)) == Some(i);
      r
  }

  /** `create_or_update_account(db, creds)`, where `email` is what the
      userinfo service reports for `creds` and `credentialsJson` is
      `creds.to_json()`. Returns the stored row. */
  method CreateOrUpdateAccount(db: Database, email: string, credentialsJson: string)
    returns (account: Account)
    requires db.Valid()
    modifies db`accounts
    ensures db.Valid()
    ensures db.accounts == UpsertByEmail(old(db.accounts), email, credentialsJson)
    ensures account.email == email && account.credentialsJson == credentialsJson && account.isActive
    ensures account == db.accounts[Find(db.accounts, ByEmail(email)).value]
  {
    var found := Find(db.accounts, ByEmail(email));
    if found.None? {
      account := NewAccount(NextId(db.accounts), email, credentialsJson);
      db.accounts := db.accounts + [account];
    } else {
      var i := found.value;
      account := db.accounts[i].(credentialsJson := credentialsJson, isActive := true);
      db.accounts := db.accounts[i := account];
    }
    assert db.accounts == UpsertByEmail(old(db.accounts), email, credentialsJson);
  }
}

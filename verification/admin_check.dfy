/**
 * The admin-status hook: resolves whether the signed-in member is an
 * administrator from the session id, a cached "true"/"false" string kept
 * per member, and a read of the member's deposit document that either
 * succeeds or fails.
 */
module AdminCheck {
  import opened Options

  const AdminStatusCacheKey: string := "admin_status"

  /** The storage key the hook writes the session id under. */
  const SessionKey: string := "userId"

  /** The per-member cache key `${ADMIN_STATUS_CACHE_KEY}_${ID}`. */
  function CacheKey(id: string): (k: string)
    ensures |k| == |AdminStatusCacheKey| + 1 + |id|
    ensures k[..|AdminStatusCacheKey| + 1] == "admin_status_" && k[|AdminStatusCacheKey| + 1..] == id
  {
    AdminStatusCacheKey + "_" + id
  }

  /** Different members never share a cache entry. */
  lemma CacheKeyInjective(a: string, b: string)
    requires CacheKey(a) == CacheKey(b)
    ensures a == b
  {
    assert a == CacheKey(a)[13..];
    assert b == CacheKey(b)[13..];
  }

  /** Writing the session id never overwrites a cached admin status. */
  lemma CacheKeyIsNotSessionKey(id: string)
    ensures CacheKey(id) != SessionKey
  {
  }

  /** The `isAdmin` field of the member's document, as JavaScript sees it. */
  datatype AdminField = Absent | BoolField(b: bool) | OtherField

  /** The outcome of `getDoc` on the member's document. */
  datatype FetchResult = Fetched(found: bool, isAdmin: AdminField) | FetchFailed

  function BoolString(b: bool): (s: string)
    ensures s == "true" <==> b
  {
    if b then "true" else "false"
  }

  /**
   * The status the hook settles on: after a successful read, whether the
   * document exists with `isAdmin === true`; after a failed read, whether
   * the cached string is "true" (no cache entry counts as not admin).
   */
  function ResolveStatus(cached: Option<string>, fetch: FetchResult): (r: bool)
    ensures fetch.Fetched? ==> (r <==> fetch.found && fetch.isAdmin == BoolField(true))
    ensures fetch.FetchFailed? ==> (r <==> cached == Some("true"))
  {
    match fetch
    case Fetched(found, field) => found && field == BoolField(true)
    case FetchFailed => cached.Some? && cached.value == "true"
  }

  /** A session id is present unless it is null or the empty string (`!ID`). */
  predicate HasSession(session: Option<string>)
  {
    session.Some? && session.value != ""
  }

  function Lookup(storage: map<string, string>, key: string): (r: Option<string>)
    ensures r.Some? <==> key in storage
    ensures r.Some? ==> r.value == storage[key]
  {
    if key in storage then Some(storage[key]) else None
  }

  /** The hook's state and the device storage it reads and writes. */
  class AdminStatus {
    var isAdmin: Option<bool>
    var userId: string
    var storage: map<string, string>

    constructor (storage: map<string, string>)
      ensures isAdmin == None && userId == "" && this.storage == storage
      ensures IsLoading()
    {
      isAdmin := None;
      userId := "";
      this.storage := storage;
    }

    /** `isLoading: isAdmin === null` */
    predicate IsLoading()
      reads this
    {
      isAdmin == None
    }

    /**
     * `checkAdminStatus`. Without a session id the member is not admin and
     * the storage is not touched. Otherwise the session id is kept, a
     * cached status is shown while the document is read (`provisional`),
     * and the status is then resolved; a successful read writes the
     * session id and the resolved status back to storage.
     */
    method CheckAdminStatus(session: Option<string>, fetch: FetchResult) returns (provisional: Option<bool>)
      modifies this
      ensures !IsLoading()
      ensures !HasSession(session) ==>
        && isAdmin == Some(false) && provisional == Some(false)
        && userId == old(userId) && storage == old(storage)
      ensures HasSession(session) ==>
        var id := session.value;
        var cached := Lookup(old(storage), CacheKey(id));
        && userId == id
        && provisional == (if cached.Some? then Some(cached.value == "true") else old(isAdmin))
        && isAdmin == Some(ResolveStatus(cached, fetch))
        && (fetch.Fetched? ==>
              storage == old(storage)[SessionKey := id][CacheKey(id) := BoolString(isAdmin.value)])
        && (fetch.FetchFailed? ==> storage == old(storage))
    {
      if !HasSession(session) {
        isAdmin := Some(false);
        return Some(false);
      }
      var id := session.value;
      userId := id;
      var cacheKey := CacheKey(id);
      var cachedStatus := Lookup(storage, cacheKey);
      if cachedStatus.Some? {
        isAdmin := Some(cachedStatus.value == "true");
      }
      provisional := isAdmin;
      match fetch {
        case Fetched(found, field) =>
          var adminStatus := found && field == BoolField(true);
          isAdmin := Some(adminStatus);
          storage := storage[SessionKey := id];
          storage := storage[cacheKey := BoolString(adminStatus)];
        case FetchFailed =>
          if cachedStatus.Some? {
            isAdmin := Some(cachedStatus.value == "true");
          } else {
            isAdmin := Some(false);
          }
      }
    }
  }

  /**
   * A successful check writes a cache entry that, on a later check whose
   * read fails, reproduces the same status.
   */
  method CachedStatusSurvivesOffline(session: Option<string>, found: bool, field: AdminField, storage: map<string, string>)
    returns (online: Option<bool>, offline: Option<bool>)
    requires HasSession(session)
    ensures online.Some? && online == offline
  {
    var hook := new AdminStatus(storage);
    var _ := hook.CheckAdminStatus(session, Fetched(found, field));
    online := hook.isAdmin;
    var later := new AdminStatus(hook.storage);
    var _ := later.CheckAdminStatus(session, FetchFailed);
    offline := later.isAdmin;
  }
}

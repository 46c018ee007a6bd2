/**
 * The selected API key (web/src/contexts/ApiKeyContext.tsx): the key in
 * memory, its copy in `sessionStorage`, and the `Authorization` header of
 * the shared HTTP client's common headers.
 */
module ApiKeyContext {
  import opened Wrappers

  /** The `sessionStorage` key of the selected key. */
  const ApiKeyStorageKey: string := "selected_api_key"

  const AuthorizationHeader: string := "Authorization"

  /** The header value a key is sent as. */
  function Bearer(key: string): string
  {
    "Bearer " + key
  }

  /** JavaScript truthiness of a `string | null`: present and non-empty. */
  predicate Truthy(key: Option<string>)
  {
    key.Some? && key.value != ""
  }

  class ApiKeyProvider {
    var apiKey: Option<string>
    var sessionStorage: map<string, string>
    var headers: map<string, string>

    /** The key in memory is always the one stored in the session. */
    ghost predicate Valid()
      reads this
    {
      apiKey == Lookup(sessionStorage, ApiKeyStorageKey)
    }

    /** A truthy key in memory is the one the client sends. */
    ghost predicate HeaderSynced()
      reads this
    {
      Truthy(apiKey) ==> Lookup(headers, AuthorizationHeader) == Some(Bearer(apiKey.value))
    }

    /** The provider's first render: the key is read back from the session. */
    constructor (session: map<string, string>, commonHeaders: map<string, string>)
      ensures Valid()
      ensures apiKey == Lookup(session, ApiKeyStorageKey)
      ensures sessionStorage == session && headers == commonHeaders
    {
      apiKey := Lookup(session, ApiKeyStorageKey);
      sessionStorage := session;
      headers := commonHeaders;
    }

    /** `setApiKey(key)`: memory, session and header all take the new key. */
    method SetApiKey(key: string)
      requires Valid()
      modifies this
      ensures Valid() && HeaderSynced()
      ensures apiKey == Some(key)
      ensures sessionStorage == old(sessionStorage)[ApiKeyStorageKey := key]
      ensures headers == old(headers)[AuthorizationHeader := Bearer(key)]
    {
      apiKey := Some(key);
      sessionStorage := sessionStorage[ApiKeyStorageKey := key];
      headers := headers[AuthorizationHeader := Bearer(key)];
    }

    /** `clearApiKey`: the key leaves memory, the session and the header. */
    method ClearApiKey()
      requires Valid()
      modifies this
      ensures Valid() && HeaderSynced()
      ensures apiKey == None
      ensures sessionStorage == old(sessionStorage) - {ApiKeyStorageKey}
      ensures headers == old(headers) - {AuthorizationHeader}
    {
      apiKey := None;
      sessionStorage := sessionStorage - {ApiKeyStorageKey};
      headers := headers - {AuthorizationHeader};
    }

    /**
     * The effect run on mount and whenever the key changes: a truthy key is
     * written to the header; the header is never removed here.
     */
    method SyncAuthorizationHeader()
      modifies this`headers
      ensures HeaderSynced()
      ensures headers == if Truthy(apiKey) then old(headers)[AuthorizationHeader := Bearer(apiKey.value)]
                         else old(headers)
      ensures old(headers).Keys <= headers.Keys
    {
      if Truthy(apiKey) {
        headers := headers[AuthorizationHeader := Bearer(apiKey.value)];
      }
    }
  }

  /** The effect a key change triggers right after `setApiKey` changes nothing more. */
  method SetApiKeyThenSync(p: ApiKeyProvider, key: string)
    requires p.Valid()
    modifies p
    ensures p.Valid() && p.HeaderSynced() && p.apiKey == Some(key)
    ensures p.sessionStorage == old(p.sessionStorage)[ApiKeyStorageKey := key]
    ensures p.headers == old(p.headers)[AuthorizationHeader := Bearer(key)]
  {
    p.SetApiKey(key);
    p.SyncAuthorizationHeader();
  }

  /** Setting a key and then clearing it leaves no trace of it: the same as clearing alone. */
  method SetThenClear(p: ApiKeyProvider, key: string)
    requires p.Valid()
    modifies p
    ensures p.Valid() && p.apiKey == None
    ensures ApiKeyStorageKey !in p.sessionStorage && AuthorizationHeader !in p.headers
    ensures p.sessionStorage == old(p.sessionStorage) - {ApiKeyStorageKey}
    ensures p.headers == old(p.headers) - {AuthorizationHeader}
  {
    p.SetApiKey(key);
    p.ClearApiKey();
  }

  /** A fresh load with a key in the session sends it once the mount effect ran, unless it is empty. */
  method LoadFromSession(session: map<string, string>, commonHeaders: map<string, string>)
    returns (key: Option<string>, authorization: Option<string>)
    ensures key == Lookup(session, ApiKeyStorageKey)
    ensures Truthy(key) ==> authorization == Some(Bearer(key.value))
    ensures !Truthy(key) ==> authorization == Lookup(commonHeaders, AuthorizationHeader)
  {
    var p := new ApiKeyProvider(session, commonHeaders);
    p.SyncAuthorizationHeader();
    key := p.apiKey;
    authorization := Lookup(p.headers, AuthorizationHeader);
  }
}

/**
 * The session state of the dashboard (web/src/contexts/AuthContext.tsx): the
 * signed-in user, the loading and authenticated flags, and the "isLoggedIn"
 * marker kept in `localStorage`. Each awaited API call is an input: the
 * caller supplies the outcome the backend would have produced.
 */
module AuthContext {
  import opened Wrappers
  import opened Types
  import opened JsStrings

  /** The `localStorage` key of the marker. */
  const AuthFlagKey: string := "isLoggedIn"

  /** A rejected HTTP call as the response interceptor sees it. */
  datatype HttpError = HttpError(
    isAxiosError: bool,      // `error instanceof AxiosError`
    status: Option<int>,     // `error.response?.status`
    url: Option<string>)     // `error.config?.url`

  /** `getAuthFlag`: the marker is present and holds exactly "true". */
  function GetAuthFlag(storage: map<string, string>): (flag: bool)
    ensures flag <==> AuthFlagKey in storage && storage[AuthFlagKey] == "true"
  {
    Lookup(storage, AuthFlagKey) == Some("true")
  }

  /** The storage `setAuthFlag(value)` leaves: "true" is stored, or the key is removed. */
  function StoreAuthFlag(storage: map<string, string>, value: bool): (after: map<string, string>)
    ensures value ==> after == storage[AuthFlagKey := "true"]
    ensures !value ==> after == storage - {AuthFlagKey}
  {
    if value then storage[AuthFlagKey := "true"] else storage - {AuthFlagKey}
  }

  /** Reading the marker back gives the value last written, and no other key is touched. */
  lemma StoreThenGet(storage: map<string, string>, value: bool)
    ensures GetAuthFlag(StoreAuthFlag(storage, value)) == value
    ensures forall k | k != AuthFlagKey ::
      (k in StoreAuthFlag(storage, value) <==> k in storage) &&
      (k in storage ==> StoreAuthFlag(storage, value)[k] == storage[k])
  {
  }

  /** The interceptor's test: a 401 from an axios call whose URL names an authentication check. */
  function ShouldClearOn401(err: HttpError): (clear: bool)
    ensures clear ==> err.isAxiosError && err.status == Some(401)
  {
    && err.isAxiosError && err.status == Some(401)
    && var url := match err.url case Some(u) => u case None => "";
       Includes(url, "/auth/me") || Includes(url, "/auth/check")
  }

  /** A 401 clears the session exactly when its URL holds "/auth/me" or "/auth/check" somewhere. */
  lemma ShouldClearOn401Iff(err: HttpError, url: string)
    requires err.isAxiosError && err.status == Some(401) && err.url == Some(url)
    ensures ShouldClearOn401(err) <==>
      (exists i: nat :: OccursAt(url, "/auth/me", i)) || (exists i: nat :: OccursAt(url, "/auth/check", i))
  {
    IncludesIff(url, "/auth/me");
    IncludesIff(url, "/auth/check");
  }

  /** Which URLs clear the session: the user check does, login and business endpoints do not. */
  lemma ShouldClearOn401Examples()
    ensures ShouldClearOn401(HttpError(true, Some(401), Some("/auth/me")))
    ensures !ShouldClearOn401(HttpError(true, Some(401), Some("/auth/login")))
    ensures !ShouldClearOn401(HttpError(true, Some(401), Some("/ledgers")))
    ensures !ShouldClearOn401(HttpError(true, Some(403), Some("/auth/me")))
    ensures !ShouldClearOn401(HttpError(true, Some(401), None))
  {
    IncludesAt("/auth/me", "/auth/me", 0);
    assert "/auth/login"[0..8][6] != "/auth/me"[6];
    NoWindowMatches("/auth/login", "/auth/me");
    assert "/auth/login"[0..11][6] != "/auth/check"[6];
    NoWindowMatches("/auth/login", "/auth/check");
    assert "/ledgers"[0..8][1] != "/auth/me"[1];
    NoWindowMatches("/ledgers", "/auth/me");
    NoWindowMatches("/ledgers", "/auth/check");
    NoWindowMatches("", "/auth/me");
    NoWindowMatches("", "/auth/check");
  }

  /** A string none of whose windows equals `sub` does not include it. */
  lemma NoWindowMatches(s: string, sub: string)
    requires |sub| > 0
    requires forall i: nat | i + |sub| <= |s| :: s[i] != sub[0] || s[i..i + |sub|] != sub
    ensures !Includes(s, sub)
  {
    IncludesIff(s, sub);
  }

  /** `AuthProvider`'s state. */
  class AuthProvider {
    var user: Option<UserResponse>
    var isAuthenticated: bool
    var isLoading: bool
    var hasAuthFlag: bool
    var localStorage: map<string, string>

    /**
     * The invariant every operation keeps: the in-memory flag mirrors the
     * stored marker, a user is held exactly while authenticated, and an
     * authenticated session always has the marker.
     */
    ghost predicate Valid()
      reads this
    {
      && hasAuthFlag == GetAuthFlag(localStorage)
      && (isAuthenticated <==> user.Some?)
      && (isAuthenticated ==> hasAuthFlag)
    }

    /** The provider's first render: loading, nobody signed in, the flag read from storage. */
    constructor (storage: map<string, string>)
      ensures Valid()
      ensures user == None && !isAuthenticated && isLoading
      ensures localStorage == storage && hasAuthFlag == GetAuthFlag(storage)
    {
      user := None;
      isAuthenticated := false;
      isLoading := true;
      localStorage := storage;
      hasAuthFlag := GetAuthFlag(storage);
    }

    /** `setAuthFlag(value)` on the provider's storage. */
    method SetAuthFlag(value: bool)
      modifies this`localStorage
      ensures localStorage == StoreAuthFlag(old(localStorage), value)
    {
      if value {
        localStorage := localStorage[AuthFlagKey := "true"];
      } else {
        localStorage := localStorage - {AuthFlagKey};
      }
    }

    /** `clearAuth`: forgets the user and the marker; `isLoading` is not touched. */
    method ClearAuth()
      modifies this
      ensures Valid()
      ensures user == None && !isAuthenticated && !hasAuthFlag
      ensures localStorage == StoreAuthFlag(old(localStorage), false)
      ensures isLoading == old(isLoading)
    {
      user := None;
      isAuthenticated := false;
      SetAuthFlag(false);
      hasAuthFlag := false;
    }

    /**
     * `checkAuth`, given the outcome of `GET /auth/me`: a user signs the
     * session in and is returned; a failure clears it and returns null.
     * Loading always ends.
     */
    method CheckAuth(me: Result<UserResponse, HttpError>) returns (r: Option<UserResponse>)
      modifies this
      ensures Valid() && !isLoading
      ensures me.Success? ==>
        && r == Some(me.value) && user == Some(me.value)
        && isAuthenticated && hasAuthFlag
        && localStorage == StoreAuthFlag(old(localStorage), true)
      ensures me.Failure? ==>
        && r == None && user == None
        && !isAuthenticated && !hasAuthFlag
        && localStorage == StoreAuthFlag(old(localStorage), false)
    {
      isLoading := true;
      match me
      case Success(currentUser) =>
        user := Some(currentUser);
        isAuthenticated := true;
        SetAuthFlag(true);
        hasAuthFlag := true;
        isLoading := false;
        r := Some(currentUser);
      case Failure(_) =>
        ClearAuth();
        isLoading := false;
        r := None;
    }

    /**
     * `login`, given the outcomes of `POST /auth/login` and of the follow-up
     * `GET /auth/me`. A failed login clears the session and rethrows its
     * error; otherwise the result says whether the user check signed in.
     */
    method Login(loginCall: Result<(), HttpError>, me: Result<UserResponse, HttpError>)
      returns (r: Result<bool, HttpError>)
      modifies this
      ensures Valid()
      ensures loginCall.Failure? ==>
        && r == Failure(loginCall.error)
        && user == None && !isAuthenticated && !hasAuthFlag
        && localStorage == StoreAuthFlag(old(localStorage), false)
        && isLoading == old(isLoading)
      ensures loginCall.Success? ==>
        && r.Success? && r.value == isAuthenticated && !isLoading
        && (r.value <==> me.Success?)
        && (me.Success? ==> user == Some(me.value) && localStorage == StoreAuthFlag(old(localStorage), true))
        && (me.Failure? ==> user == None && localStorage == StoreAuthFlag(old(localStorage), false))
    {
      match loginCall
      case Failure(err) =>
        ClearAuth();
        r := Failure(err);
      case Success(_) =>
        SetAuthFlag(true);
        hasAuthFlag := true;
        var signedIn := CheckAuth(me);
        r := Success(signedIn.Some?);
    }

    /** `logout`: the session is cleared only once `POST /auth/logout` succeeds; a failure propagates. */
    method Logout(logoutCall: Result<(), HttpError>) returns (r: Result<(), HttpError>)
      requires Valid()
      modifies this
      ensures Valid()
      ensures r == logoutCall
      ensures logoutCall.Failure? ==>
        && user == old(user) && isAuthenticated == old(isAuthenticated)
        && isLoading == old(isLoading) && hasAuthFlag == old(hasAuthFlag)
        && localStorage == old(localStorage)
      ensures logoutCall.Success? ==>
        && user == None && !isAuthenticated && !hasAuthFlag && isLoading == old(isLoading)
        && localStorage == StoreAuthFlag(old(localStorage), false)
    {
      match logoutCall
      case Failure(_) =>
        r := logoutCall;
      case Success(_) =>
        ClearAuth();
        r := logoutCall;
    }

    /** The response interceptor: clears the session on a 401 from an auth check, and always rejects. */
    method OnResponseError(err: HttpError) returns (rejected: HttpError)
      requires Valid()
      modifies this
      ensures Valid()
      ensures rejected == err
      ensures ShouldClearOn401(err) ==>
        && user == None && !isAuthenticated && !hasAuthFlag && isLoading == old(isLoading)
        && localStorage == StoreAuthFlag(old(localStorage), false)
      ensures !ShouldClearOn401(err) ==>
        && user == old(user) && isAuthenticated == old(isAuthenticated)
        && isLoading == old(isLoading) && hasAuthFlag == old(hasAuthFlag)
        && localStorage == old(localStorage)
    {
      if ShouldClearOn401(err) {
        ClearAuth();
      }
      rejected := err;
    }

    /**
     * The mount effect: with no marker in storage loading simply ends and no
     * call is made; otherwise `checkAuth` runs with the outcome `me`.
     */
    method Mount(me: Result<UserResponse, HttpError>)
      requires Valid()
      modifies this
      ensures Valid() && !isLoading
      ensures !GetAuthFlag(old(localStorage)) ==>
        && user == old(user) && isAuthenticated == old(isAuthenticated)
        && hasAuthFlag == old(hasAuthFlag) && localStorage == old(localStorage)
      ensures GetAuthFlag(old(localStorage)) && me.Success? ==>
        && user == Some(me.value) && isAuthenticated && hasAuthFlag
        && localStorage == old(localStorage)
      ensures GetAuthFlag(old(localStorage)) && me.Failure? ==>
        && user == None && !isAuthenticated && !hasAuthFlag
        && localStorage == StoreAuthFlag(old(localStorage), false)
    {
      if GetAuthFlag(localStorage) {
        var _ := CheckAuth(me);
        assert GetAuthFlag(old(localStorage)) ==> old(localStorage)[AuthFlagKey := "true"] == old(localStorage);
      } else {
        isLoading := false;
      }
    }
  }

  /**
   * `checkAuth` when `GET /auth/me` is rejected: the interceptor sees the
   * error first, then `checkAuth` handles the same rejection. Clearing twice
   * ends where `checkAuth` alone would.
   */
  method CheckAuthRejected(auth: AuthProvider, err: HttpError) returns (r: Option<UserResponse>)
    requires auth.Valid()
    modifies auth
    ensures auth.Valid() && r == None && !auth.isLoading
    ensures auth.user == None && !auth.isAuthenticated && !auth.hasAuthFlag
    ensures auth.localStorage == StoreAuthFlag(old(auth.localStorage), false)
  {
    var rejected := auth.OnResponseError(err);
    r := auth.CheckAuth(Failure(rejected));
  }
}

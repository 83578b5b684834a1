/** The client's auth store: five fields that each action overwrites in
    part. The API client is the oracle `api`; an awaited call is the boundary
    between the two `set` calls of `login` and `register`. */
module AuthStore {
  import opened Values

  /** What an API call resolves to, or the message of the error it throws. */
  datatype ApiResult = Resolved(response: Json) | Threw(message: string)

  class Store {
    var user: Json
    var token: Option<string>
    var isAuthenticated: bool
    var isLoading: bool
    var error: Option<string>

    /** The state the store is created with. */
    constructor ()
      ensures user == Null && token == None && !isAuthenticated && !isLoading && error == None
    {
      user, token, isAuthenticated, isLoading, error := Null, None, false, false, None;
    }

    /** `set({ isLoading: true, error: null })`, on entry to `login` and
        `register`. */
    method Begin()
      modifies this
      ensures isLoading && error == None
      ensures user == old(user) && token == old(token) && isAuthenticated == old(isAuthenticated)
    {
      isLoading, error := true, None;
    }

    /** The end of `login` and `register` once the call settles: success only
        clears `isLoading` and returns the response; failure also records the
        message. */
    method Settle(outcome: ApiResult) returns (response: Option<Json>)
      modifies this
      ensures !isLoading
      ensures user == old(user) && token == old(token) && isAuthenticated == old(isAuthenticated)
      ensures outcome.Resolved? ==> error == old(error) && response == Some(outcome.response)
      ensures outcome.Threw? ==> error == Some(outcome.message) && response == None
    {
      match outcome
      case Resolved(r) =>
        isLoading := false;
        response := Some(r);
      case Threw(m) =>
        error, isLoading := Some(m), false;
        response := None;
    }

    /** `login(email, password)`: never signs the user in by itself. */
    method Login(email: string, password: string, api: (string, string) -> ApiResult) returns (response: Option<Json>)
      modifies this
      ensures !isLoading
      ensures user == old(user) && token == old(token) && isAuthenticated == old(isAuthenticated)
      ensures api(email, password).Resolved? ==> error == None && response == Some(api(email, password).response)
      ensures api(email, password).Threw? ==> error == Some(api(email, password).message) && response == None
    {
      Begin();
      response := Settle(api(email, password));
    }

    /** `register(email, password, username)`: like `login`. */
    method Register(email: string, password: string, username: string,
                    api: (string, string, string) -> ApiResult) returns (response: Option<Json>)
      modifies this
      ensures !isLoading
      ensures user == old(user) && token == old(token) && isAuthenticated == old(isAuthenticated)
      ensures api(email, password, username).Resolved? ==>
                error == None && response == Some(api(email, password, username).response)
      ensures api(email, password, username).Threw? ==>
                error == Some(api(email, password, username).message) && response == None
    {
      Begin();
      response := Settle(api(email, password, username));
    }

    /** `setAuth(user, token)`: signs in and clears the error; `isLoading` is
        kept. */
    method SetAuth(u: Json, t: Option<string>)
      modifies this
      ensures user == u && token == t && isAuthenticated && error == None
      ensures isLoading == old(isLoading)
    {
      user, token, isAuthenticated, error := u, t, true, None;
    }

    /** `logout()`: signs out; `isLoading` and `error` are kept. */
    method Logout()
      modifies this
      ensures user == Null && token == None && !isAuthenticated
      ensures isLoading == old(isLoading) && error == old(error)
    {
      user, token, isAuthenticated := Null, None, false;
    }

    /** `clearError()`: only `error` changes. */
    method ClearError()
      modifies this
      ensures error == None
      ensures user == old(user) && token == old(token) && isAuthenticated == old(isAuthenticated)
      ensures isLoading == old(isLoading)
    {
      error := None;
    }
  }
}

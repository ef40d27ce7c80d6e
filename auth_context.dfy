/**
 * The client session of frontend/src/context/AuthContext.tsx: the in-memory identity
 * `user` and the durable storage slot `token`.
 */
module AuthContext {
  import opened Wrappers

  /** What the token endpoint answers: a token, or a rejected request with its message. */
  datatype TokenReply = Issued(accessToken: string) | Failed(message: string)

  const OutsideProvider := "useAuth must be used within an AuthProvider"

  class AuthProvider {
    /** The signed-in username; `None` is `null`. */
    var user: Option<string>
    /** The storage slot `token`; `None` when the key is absent. */
    var storedToken: Option<string>

    /** A signed-in user always has a stored token: login writes the token first. */
    ghost predicate Valid()
      reads this
    {
      user.Some? ==> storedToken.Some?
    }

    /**
     * A freshly mounted provider starts signed out; the storage slot keeps whatever an
     * earlier page load left there.
     */
    constructor (persisted: Option<string>)
      ensures Valid()
      ensures user == None && storedToken == persisted
    {
      user := None;
      storedToken := persisted;
    }

    /**
     * Posts the form `{username, password}` to the token endpoint; on an answer stores the
     * token and then sets the user, on a failure passes the error on and changes nothing.
     */
    method Login(username: string, password: string, tokenEndpoint: (string, string) -> TokenReply)
      returns (failure: Option<string>)
      requires Valid()
      modifies this
      ensures Valid()
      ensures tokenEndpoint(username, password).Issued? ==>
        && failure == None
        && storedToken == Some(tokenEndpoint(username, password).accessToken)
        && user == Some(username)
      ensures tokenEndpoint(username, password).Failed? ==>
        && failure == Some(tokenEndpoint(username, password).message)
        && user == old(user) && storedToken == old(storedToken)
    {
      var reply := tokenEndpoint(username, password);
      match reply
      case Failed(message) =>
        failure := Some(message);
      case Issued(accessToken) =>
        storedToken := Some(accessToken);
        assert Valid();
        user := Some(username);
        failure := None;
    }

    /** Removes the stored token and clears the user, whatever the state before. */
    method Logout()
      modifies this
      ensures Valid()
      ensures user == None && storedToken == None
    {
      storedToken := None;
      user := None;
    }
  }

  /** `useAuth`: the provider in scope, or the error thrown when there is none. */
  function UseAuth(context: Option<AuthProvider>): (r: Result<AuthProvider, string>)
    ensures r.Success? <==> context.Some?
    ensures r.Success? ==> r.value == context.value
    ensures r.Failure? ==> r.error == OutsideProvider
  {
    match context
    case None => Failure(OutsideProvider)
    case Some(provider) => Success(provider)
  }
}

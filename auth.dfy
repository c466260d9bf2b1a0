/** The authentication context (`src/contexts/AuthContext.tsx`): the signed-in user, the
    token, and the copy of the token kept in the browser's local storage. */
module Auth {
  import opened Js
  import opened Api

  datatype User = User(id: string, name: string, email: string, role: string)

  /** The local-storage key of the token. */
  const TokenKey: string := "token"

  /** `const { token, ...userData } = response.data`: the user without the token. */
  function UserPart(d: AuthData): User {
    User(d.id, d.name, d.email, d.role)
  }

  /** `localStorage.getItem('token')`. */
  function StoredToken(storage: map<string, string>): (t: Option<string>)
    ensures t.Some? <==> TokenKey in storage
    ensures t.Some? ==> t.value == storage[TokenKey]
  {
    if TokenKey in storage then Some(storage[TokenKey]) else None
  }

  /** The error a failed login or signup rejects with: the thrown message as it is, or
      for a resolved reply without `success`, its message or the fallback. */
  function AuthError(reply: Call<Envelope<AuthData>>, fallback: string): (e: Option<string>)
    ensures e.None? <==> reply.Resolved? && reply.body.success
    ensures reply.Thrown? ==> e == Some(reply.message)
    ensures reply.Resolved? && !reply.body.success ==> e == Some(OrElse(reply.body.message, fallback))
  {
    match reply
    case Thrown(m) => Some(m)
    case Resolved(body) => if body.success then None else Some(OrElse(body.message, fallback))
  }

  class AuthSession {
    var user: Option<User>
    var token: Option<string>
    var isLoading: bool
    /** The browser's local storage. */
    var storage: map<string, string>

    /** The token in state is always the one in storage. */
    predicate Synced()
      reads this
    {
      token == StoredToken(storage)
    }

    /** `isAuthenticated` (line 110): a user and a non-empty token. */
    function IsAuthenticated(): (b: bool)
      reads this
      ensures b ==> user.Some? && token.Some?
    {
      user.Some? && HasToken(token)
    }

    /** The provider's first render (lines 36-38): no user, the stored token, loading. */
    constructor (storage: map<string, string>)
      ensures user == None && token == StoredToken(storage) && isLoading
      ensures this.storage == storage
      ensures Synced() && !IsAuthenticated()
    {
      user, isLoading := None, true;
      token := StoredToken(storage);
      this.storage := storage;
    }

    /** `initializeAuth` (lines 41-60), with the reply of `getProfile` as input. A stored
        token is kept only if the profile request resolves with `success`; otherwise it is
        removed from state and storage. Without a stored token nothing but loading changes. */
    method InitializeAuth(reply: Call<Envelope<AuthData>>)
      requires Synced()
      modifies this
      ensures !isLoading && Synced()
      ensures !HasToken(old(StoredToken(storage))) ==>
        user == old(user) && token == old(token) && storage == old(storage)
      ensures HasToken(old(StoredToken(storage))) && reply.Resolved? && reply.body.success ==>
        user == Some(UserPart(reply.body.data)) && token == old(token) && storage == old(storage)
        && IsAuthenticated()
      ensures HasToken(old(StoredToken(storage))) && !(reply.Resolved? && reply.body.success) ==>
        user == old(user) && token == None && storage == old(storage) - {TokenKey}
        && !IsAuthenticated()
    {
      var storedToken := StoredToken(storage);
      if HasToken(storedToken) {
        match reply {
          case Resolved(body) =>
            if body.success {
              user := Some(UserPart(body.data));
              token := storedToken;
            } else {
              storage := storage - {TokenKey};
              token := None;
            }
          case Thrown(_) =>
            storage := storage - {TokenKey};
            token := None;
        }
      }
      isLoading := false;
    }

    /** The shared success path of `login` and `signup`: keep the user, set and store the token. */
    method SignIn(data: AuthData)
      modifies this`user, this`token, this`storage
      ensures user == Some(UserPart(data)) && token == Some(data.token)
      ensures storage == old(storage)[TokenKey := data.token]
      ensures Synced()
    {
      user := Some(UserPart(data));
      token := Some(data.token);
      storage := storage[TokenKey := data.token];
    }

    /** `login` (lines 65-79), with the reply of the login request as input. Returns the
        error the promise rejects with, or None when it resolves. */
    method Login(reply: Call<Envelope<AuthData>>) returns (error: Option<string>)
      requires Synced()
      modifies this`user, this`token, this`storage
      ensures error == AuthError(reply, "Login failed")
      ensures error.None? ==>
        user == Some(UserPart(reply.body.data)) && token == Some(reply.body.data.token)
        && storage == old(storage)[TokenKey := reply.body.data.token]
      ensures error.Some? ==> user == old(user) && token == old(token) && storage == old(storage)
      ensures Synced()
    {
      error := AuthError(reply, "Login failed");
      if error.None? {
        SignIn(reply.body.data);
      }
    }

    /** `signup` (lines 81-95): the same as `login` with its own fallback message. */
    method Signup(reply: Call<Envelope<AuthData>>) returns (error: Option<string>)
      requires Synced()
      modifies this`user, this`token, this`storage
      ensures error == AuthError(reply, "Signup failed")
      ensures error.None? ==>
        user == Some(UserPart(reply.body.data)) && token == Some(reply.body.data.token)
        && storage == old(storage)[TokenKey := reply.body.data.token]
      ensures error.Some? ==> user == old(user) && token == old(token) && storage == old(storage)
      ensures Synced()
    {
      error := AuthError(reply, "Signup failed");
      if error.None? {
        SignIn(reply.body.data);
      }
    }

    /** `logout` (lines 97-101): no user, no token, nothing stored under the token key;
        every other storage entry is kept. */
    method Logout()
      modifies this`user, this`token, this`storage
      ensures user == None && token == None
      ensures storage == old(storage) - {TokenKey}
      ensures Synced() && !IsAuthenticated()
    {
      user := None;
      token := None;
      storage := storage - {TokenKey};
    }
  }

  /** A successful login with a non-empty token authenticates the session, and a later
      logout ends it; a second logout leaves the same state. */
  method LoginThenLogout(s: AuthSession, data: AuthData)
    requires s.Synced() && data.token != ""
    modifies s
    ensures !s.IsAuthenticated() && s.Synced()
    ensures s.storage == old(s.storage) - {TokenKey}
  {
    var error := s.Login(Resolved(Envelope(true, data, "")));
    assert s.IsAuthenticated();
    s.Logout();
    ghost var afterFirst := s.storage;
    s.Logout();
    assert s.storage == afterFirst;
  }
}

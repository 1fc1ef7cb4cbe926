/** The session store: the token, the signed-in user and the
    `isAuthenticated` flag, with the token mirrored under the `token` key of
    the browser's storage. Login and registration are mocks that always
    succeed and mint a token from the current time. */
module Auth {
  import opened Wrappers
  import opened Chars

  /** The user record the mocks build. */
  datatype User = User(id: int, name: string, email: string)

  const TokenPrefix := "mock-token-"
  const MockUserId := 1
  const MockUserName := "Usuário Teste"

  /** The decimal digit character for `d`. */
  function DigitChar(d: nat): char
    requires d < 10
  {
    ('0' as int + d) as char
  }

  /** How `Date.now()` (a whole number of milliseconds) is written when it is
      concatenated to a string: decimal, no leading zeros. */
  function DecimalString(n: nat): (s: string)
    ensures |s| >= 1
    ensures AllDigits(s)
    ensures |s| > 1 ==> s[0] != '0'
  {
    if n < 10 then [DigitChar(n)] else DecimalString(n / 10) + [DigitChar(n % 10)]
  }

  /** Reads a string of decimal digits back as a number. */
  function ParseDecimal(s: string): nat
    requires AllDigits(s)
  {
    if s == [] then 0
    else ParseDecimal(s[..|s| - 1]) * 10 + (s[|s| - 1] as int - '0' as int)
  }

  lemma {:induction false} DecimalRoundTrip(n: nat)
    ensures ParseDecimal(DecimalString(n)) == n
  {
    var s := DecimalString(n);
    if n >= 10 {
      DecimalRoundTrip(n / 10);
      assert s[..|s| - 1] == DecimalString(n / 10);
    }
  }

  /** `'mock-token-' + Date.now()`. */
  function MockToken(now: nat): (t: string)
    ensures |t| > |TokenPrefix| && t[..|TokenPrefix|] == TokenPrefix
  {
    TokenPrefix + DecimalString(now)
  }

  /** Tokens minted at different instants differ. */
  lemma MockTokenInjective(a: nat, b: nat)
    requires MockToken(a) == MockToken(b)
    ensures a == b
  {
    var n := |TokenPrefix|;
    assert MockToken(a)[n..] == DecimalString(a);
    assert MockToken(b)[n..] == DecimalString(b);
    DecimalRoundTrip(a);
    DecimalRoundTrip(b);
  }

  /** JavaScript truthiness of `token.value`: present and not the empty string. */
  predicate Truthy(token: Option<string>) {
    token.Some? && token.value != ""
  }

  class AuthStore {
    var token: Option<string>
    var user: Option<User>
    var isAuthenticated: bool
    /** The value held under the `token` storage key; `None` when the key is absent. */
    var storedToken: Option<string>

    /** The flag follows the token, and storage mirrors the token. */
    ghost predicate Valid()
      reads this
    {
      isAuthenticated == Truthy(token) && storedToken == token
    }

    /** After every store operation the flag is exactly "a token is held". */
    ghost predicate Settled()
      reads this
    {
      Valid() && (isAuthenticated <==> token.Some?)
    }

    /** The store as it starts, seeded from what storage holds. */
    constructor (stored: Option<string>)
      ensures Valid()
      ensures token == stored && storedToken == stored && user == None
      ensures isAuthenticated == Truthy(stored)
    {
      token := stored;
      user := None;
      isAuthenticated := Truthy(stored);
      storedToken := stored;
    }

    /** Accepts any credentials: a fresh token from `now`, a mock user with the
        given email, and the token written to storage. */
    method Login(email: string, password: string, now: nat) returns (ok: bool)
      modifies this
      ensures Settled()
      ensures token == Some(MockToken(now)) && storedToken == token
      ensures user == Some(User(MockUserId, MockUserName, email))
      ensures isAuthenticated && ok
    {
      var mockToken := MockToken(now);
      var mockUser := User(MockUserId, MockUserName, email);
      token := Some(mockToken);
      user := Some(mockUser);
      isAuthenticated := true;
      storedToken := Some(mockToken);
      ok := true;
    }

    /** Accepts any registration: as `Login`, with the user's name taken from
        the arguments. */
    method Register(name: string, email: string, password: string, now: nat) returns (ok: bool)
      modifies this
      ensures Settled()
      ensures token == Some(MockToken(now)) && storedToken == token
      ensures user == Some(User(MockUserId, name, email))
      ensures isAuthenticated && ok
    {
      var mockToken := MockToken(now);
      var mockUser := User(MockUserId, name, email);
      token := Some(mockToken);
      user := Some(mockUser);
      isAuthenticated := true;
      storedToken := Some(mockToken);
      ok := true;
    }

    /** Clears the session and the storage key. The state afterwards does not
        depend on the state before, so a second logout changes nothing. */
    method Logout()
      modifies this
      ensures Settled()
      ensures token == None && user == None && !isAuthenticated && storedToken == None
    {
      token := None;
      user := None;
      isAuthenticated := false;
      storedToken := None;
    }
  }

  /** Logging out twice leaves the store as one logout does. */
  method LogoutTwice(store: AuthStore)
    modifies store
    ensures store.Settled()
    ensures store.token == None && store.user == None && !store.isAuthenticated && store.storedToken == None
  {
    store.Logout();
    store.Logout();
  }
}

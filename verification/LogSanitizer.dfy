/** The keys whose values never reach the persistent log, and the passes that mask them. */
module LogSanitizer {
  import opened Redaction
  import opened RedactionProofs

  const KEYS: seq<Text> := [
    "password", "token", "authorization", "cookie", "set-cookie", "secret", "api_key", "apikey", "private_key",
    "oauth_code", "oauthcode", "ws_token", "session_token", "remoting-auth-token", "access_token"]

  const MAX_PERSISTENT_FLIGHT_DETAIL_CHARS := 2048

  /** `char::is_control`: the general category Cc of Unicode. */
  predicate IsControl(c: char) { c as int < 32 || 127 <= c as int < 160 }

  /** Control characters become blanks, then every key is masked in turn. */
  function Normalized(text: Text): (n: Text)
    ensures |n| == |text|
  {
    seq(|text|, i requires 0 <= i < |text| => if IsControl(text[i]) then ' ' else text[i])
  }

  function Logged(value: Text): Text
  {
    KeysAreGood();
    Take(RedactAll(Normalized(value), KEYS), MAX_PERSISTENT_FLIGHT_DETAIL_CHARS)
  }

  lemma {:induction false} PasswordIsGood()
    ensures GoodKey("password")
  {
    hide Unbordered;
    NoRestartIsGood("password");
  }

  lemma {:induction false} TokenIsGood()
    ensures GoodKey("token")
  {
    hide Unbordered;
    NoRestartIsGood("token");
  }

  lemma {:induction false} AuthorizationIsGood()
    ensures GoodKey("authorization")
  {
    hide Unbordered;
    NoRestartIsGood("authorization");
  }

  lemma {:induction false} CookieIsGood()
    ensures GoodKey("cookie")
  {
    hide Unbordered;
    NoRestartIsGood("cookie");
  }

  lemma {:induction false} SetCookieIsGood()
    ensures GoodKey("set-cookie")
  {
    hide Unbordered;
    NoRestartIsGood("set-cookie");
  }

  lemma {:induction false} SecretIsGood()
    ensures GoodKey("secret")
  {
    hide Unbordered;
    NoRestartIsGood("secret");
  }

  lemma {:induction false} ApiKeyIsGood()
    ensures GoodKey("api_key")
  {
    hide Unbordered;
    NoRestartIsGood("api_key");
  }

  lemma {:induction false} ApikeyIsGood()
    ensures GoodKey("apikey")
  {
    hide Unbordered;
    NoRestartIsGood("apikey");
  }

  lemma {:induction false} PrivateKeyIsGood()
    ensures GoodKey("private_key")
  {
    hide Unbordered;
    NoRestartIsGood("private_key");
  }

  lemma {:induction false} OauthCodeIsGood()
    ensures GoodKey("oauth_code")
  {
    hide Unbordered;
    NoRestartIsGood("oauth_code");
  }

  lemma {:induction false} OauthcodeIsGood()
    ensures GoodKey("oauthcode")
  {
    hide Unbordered;
    NoRestartIsGood("oauthcode");
  }

  lemma {:induction false} WsTokenIsGood()
    ensures GoodKey("ws_token")
  {
    hide Unbordered;
    NoRestartIsGood("ws_token");
  }

  lemma {:induction false} SessionTokenIsGood()
    ensures GoodKey("session_token")
  {
    hide Unbordered;
    NoRestartIsGood("session_token");
  }

  lemma {:induction false} RemotingAuthTokenIsGood()
    ensures GoodKey("remoting-auth-token")
  {
    hide Unbordered;
    NoRestartIsGood("remoting-auth-token");
  }

  lemma {:induction false} AccessTokenIsGood()
    ensures GoodKey("access_token")
  {
    hide Unbordered;
    NoRestartIsGood("access_token");
  }

  lemma {:induction false} KeysAreGood()
    ensures forall i | 0 <= i < |KEYS| :: GoodKey(KEYS[i])
  {
    hide GoodKey;
    PasswordIsGood();
    TokenIsGood();
    AuthorizationIsGood();
    CookieIsGood();
    SetCookieIsGood();
    SecretIsGood();
    ApiKeyIsGood();
    ApikeyIsGood();
    PrivateKeyIsGood();
    OauthCodeIsGood();
    OauthcodeIsGood();
    WsTokenIsGood();
    SessionTokenIsGood();
    RemotingAuthTokenIsGood();
    AccessTokenIsGood();
  }

  /** After all passes every assignment to every one of the keys has a masked value, and in what is
      logged, cut to its length, a masked one or one that ends inside its mask. */
  lemma {:induction false} LoggedTextIsMasked(value: Text)
    ensures forall i | 0 <= i < |KEYS| :: KEYS[i] != []
    ensures forall i | 0 <= i < |KEYS| :: AllMasked(RedactAll(Normalized(value), KEYS), KEYS[i])
    ensures forall i | 0 <= i < |KEYS| :: AllMaskedOrCut(Logged(value), KEYS[i])
  {
    KeysAreGood();
    hide AllMasked, AllMaskedOrCut, IsKey, Unbordered, RedactAll, Normalized;
    AllPassesMask(Normalized(value), KEYS, []);
    forall i | 0 <= i < |KEYS| ensures AllMaskedOrCut(Logged(value), KEYS[i]) {
      CutAllMasked(RedactAll(Normalized(value), KEYS), KEYS[i], MAX_PERSISTENT_FLIGHT_DETAIL_CHARS);
    }
  }

  method SanitizeDetail(value: Text) returns (output: Text)
    ensures |output| <= MAX_PERSISTENT_FLIGHT_DETAIL_CHARS
    ensures output == Logged(value)
    ensures forall i | 0 <= i < |KEYS| :: AllMaskedOrCut(output, KEYS[i])
  {
    hide IsKey, Unbordered, Normalized, AllMasked, AllMaskedOrCut;
    KeysAreGood();
    LoggedTextIsMasked(value);
    output := RedactEveryKey(Normalized(value), KEYS);
    output := Take(output, MAX_PERSISTENT_FLIGHT_DETAIL_CHARS);
  }
}

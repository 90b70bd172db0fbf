/**
 * The example web application's RequestInterceptorHandler: paths listed in
 * webServer.ignorePaths pass, every other request needs an `Authorization: Basic`
 * header whose decoded "username:password" matches the password stored in the Redis
 * hash "user:basic auth". Base64 decoding (with the platform charset) is an input that
 * may fail, and the hash is a map; the request proceeds (`next()`), is answered 401, or
 * the handler throws.
 */
module RequestInterceptor {
  import opened Wrappers
  import opened Text

  /** The messages of the four 401 answers. */
  const BlankHeader := "basic auth:Authorization is null or blank"
  const BadHeader := "basic auth:Authorization is error"
  const BlankCredentials := "basic auth:username/password is null or blank"
  const WrongCredentials := "basic auth:username/password is error"

  /** What handle throws: no webServer section, a token that is not Base64, decoded text without ':'. */
  datatype Failure = MissingWebServer | InvalidBase64 | MissingPassword

  datatype Outcome = Proceed | Unauthorized(message: string) | Thrown(failure: Failure)

  /**
   * The header checks, in order: present and not blank, exactly two space-separated
   * parts of which the first is "Basic", a decodable token, a ':' in the decoded text,
   * and a username and password (the first two ':'-parts) that are not blank.
   */
  function Credentials(header: Option<string>, decode: string -> Option<string>): (r: Result<(string, string), Outcome>)
    ensures r.Err? ==> !r.error.Proceed?
    ensures r.Ok? ==> !IsBlank(r.value.0) && !IsBlank(r.value.1) && ':' !in r.value.0 && ':' !in r.value.1
    ensures header.None? || IsBlank(header.value) ==> r == Err(Unauthorized(BlankHeader))
    ensures header.Some? && !IsBlank(header.value) ==>
      var auth := Split(header.value, ' ');
      (r == Err(Unauthorized(BadHeader)) <==> |auth| != 2 || auth[0] != "Basic")
    ensures header.Some? && !IsBlank(header.value) ==>
      var auth := Split(header.value, ' ');
      |auth| == 2 && auth[0] == "Basic" ==>
        && (r == Err(Thrown(InvalidBase64)) <==> decode(auth[1]).None?)
        && (decode(auth[1]).Some? ==>
              var parts := Split(decode(auth[1]).value, ':');
              && (r == Err(Thrown(MissingPassword)) <==> |parts| < 2)
              && (r == Err(Unauthorized(BlankCredentials)) <==> |parts| >= 2 && (IsBlank(parts[0]) || IsBlank(parts[1])))
              && (r.Ok? <==> |parts| >= 2 && !IsBlank(parts[0]) && !IsBlank(parts[1]))
              && (r.Ok? ==> r.value == (parts[0], parts[1])))
  {
    if header.None? || IsBlank(header.value) then Err(Unauthorized(BlankHeader))
    else
      var auth := Split(header.value, ' ');
      if |auth| != 2 || auth[0] != "Basic" then Err(Unauthorized(BadHeader))
      else
        match decode(auth[1])
        case None => Err(Thrown(InvalidBase64))
        case Some(text) =>
          var parts := Split(text, ':');
          SplitPartsFree(text, ':');
          if |parts| < 2 then Err(Thrown(MissingPassword))
          else if IsBlank(parts[0]) || IsBlank(parts[1]) then Err(Unauthorized(BlankCredentials))
          else Ok((parts[0], parts[1]))
  }

  /**
   * handle: a missing webServer section throws; an ignored path proceeds without any
   * check; otherwise the credentials must parse and the stored password must be present,
   * not blank and equal to the given one.
   */
  function Intercept(ignorePaths: Option<seq<string>>, path: string, header: Option<string>,
                     decode: string -> Option<string>, store: map<string, string>): (r: Outcome)
    ensures ignorePaths.None? ==> r == Thrown(MissingWebServer)
    ensures ignorePaths.Some? && path in ignorePaths.value ==> r == Proceed
    ensures ignorePaths.Some? && path !in ignorePaths.value && (header.None? || IsBlank(header.value)) ==>
      r == Unauthorized(BlankHeader)
    ensures r == Proceed && path !in ignorePaths.value ==>
      var c := Credentials(header, decode);
      c.Ok? && c.value.0 in store && !IsBlank(store[c.value.0]) && store[c.value.0] == c.value.1
    ensures ignorePaths.Some? && path !in ignorePaths.value ==>
      var c := Credentials(header, decode);
      && (c.Err? ==> r == c.error)
      && (c.Ok? ==> (r == Proceed <==> c.value.0 in store && !IsBlank(store[c.value.0]) && store[c.value.0] == c.value.1))
      && (c.Ok? && r != Proceed ==> r == Unauthorized(WrongCredentials))
  {
    if ignorePaths.None? then Thrown(MissingWebServer)
    else if path in ignorePaths.value then Proceed
    else
      match Credentials(header, decode)
      case Err(outcome) => outcome
      case Ok((username, password)) =>
        if username !in store || IsBlank(store[username]) || store[username] != password then Unauthorized(WrongCredentials)
        else Proceed
  }

  /** The header of a well-formed request: the scheme, one space, the token. */
  function BasicHeader(token: string): string {
    "Basic " + token
  }

  /**
   * A token that decodes to "user:password" for a stored user, with neither part blank
   * nor holding ':', lets the request through.
   */
  lemma BasicAuthAccepted(ignorePaths: seq<string>, path: string, token: string, user: string, password: string,
                          decode: string -> Option<string>, store: map<string, string>)
    requires ' ' !in token && decode(token) == Some(user + ":" + password)
    requires ':' !in user && ':' !in password && !IsBlank(user) && !IsBlank(password)
    requires user in store && store[user] == password
    ensures Intercept(Some(ignorePaths), path, Some(BasicHeader(token)), decode, store) == Proceed
  {
    SplitHeader(token);
    SplitCredentials(user, password);
  }

  lemma SplitHeader(token: string)
    requires ' ' !in token
    ensures !IsBlank(BasicHeader(token))
    ensures Split(BasicHeader(token), ' ') == ["Basic", token]
  {
    assert !IsWhitespace(BasicHeader(token)[0]);
    assert BasicHeader(token) == "Basic" + [' '] + token;
    SplitJoin(["Basic", token], ' ');
    assert Join(["Basic", token], ' ') == "Basic" + [' '] + Join([token], ' ');
  }

  lemma SplitCredentials(user: string, password: string)
    requires ':' !in user && ':' !in password
    ensures Split(user + ":" + password, ':') == [user, password]
  {
    assert user + ":" + password == user + [':'] + password;
    SplitJoin([user, password], ':');
    assert Join([user, password], ':') == user + [':'] + Join([password], ':');
  }

  /**
   * A password containing ':' is cut at it, although section 2 of RFC 7617 allows ':' in
   * the password: the stored full password is refused, the part before the ':' accepted.
   */
  lemma PasswordWithColonTruncated(ignorePaths: seq<string>, path: string, token: string, user: string,
                                   first: string, rest: string, decode: string -> Option<string>)
    requires path !in ignorePaths && ' ' !in token && decode(token) == Some(user + ":" + first + ":" + rest)
    requires ':' !in user && ':' !in first && ':' !in rest && !IsBlank(user) && !IsBlank(first)
    ensures Intercept(Some(ignorePaths), path, Some(BasicHeader(token)), decode, map[user := first + ":" + rest])
      == Unauthorized(WrongCredentials)
    ensures Intercept(Some(ignorePaths), path, Some(BasicHeader(token)), decode, map[user := first]) == Proceed
  {
    SplitHeader(token);
    SplitThree(user, first, rest);
    assert |first + ":" + rest| > |first|;
  }

  lemma SplitThree(a: string, b: string, c: string)
    requires ':' !in a && ':' !in b && ':' !in c
    ensures Split(a + ":" + b + ":" + c, ':') == [a, b, c]
  {
    assert a + ":" + b + ":" + c == (a + ":" + b) + [':'] + c;
    SplitAround(a + ":" + b, c, ':');
    SplitCredentials(a, b);
    SplitNoSep(c, ':');
  }

  /**
   * The scheme is compared case-sensitively, although section 2.1 of RFC 7235 makes
   * auth-scheme names case-insensitive: "basic" is refused.
   */
  lemma LowerCaseSchemeRefused(ignorePaths: seq<string>, path: string, token: string,
                               decode: string -> Option<string>, store: map<string, string>)
    requires path !in ignorePaths && ' ' !in token
    ensures Intercept(Some(ignorePaths), path, Some("basic " + token), decode, store) == Unauthorized(BadHeader)
  {
    var header := "basic " + token;
    assert !IsWhitespace(header[0]);
    assert header == "basic" + [' '] + token;
    SplitJoin(["basic", token], ' ');
    assert Join(["basic", token], ' ') == "basic" + [' '] + Join([token], ' ');
    assert "basic" != "Basic" by {
      assert "basic"[0] != "Basic"[0];
    }
  }

  /** Decoded text without ':' makes handle throw instead of answering 401. */
  lemma NoColonThrows(ignorePaths: seq<string>, path: string, token: string, text: string,
                      decode: string -> Option<string>, store: map<string, string>)
    requires path !in ignorePaths && ' ' !in token && decode(token) == Some(text) && ':' !in text
    ensures Intercept(Some(ignorePaths), path, Some(BasicHeader(token)), decode, store) == Thrown(MissingPassword)
  {
    SplitHeader(token);
    SplitNoSep(text, ':');
  }
}

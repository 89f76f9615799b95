/**
 * `AuthorizationCodeExchangeForm`: the two fields of the code-exchange request
 * and the form-level `clean`, which resolves the OAuth client and the user that
 * holds the submitted code, each independently, collecting field-keyed errors.
 */
module ExchangeForm {
  import opened Common
  import opened AuthCodes

  datatype Field = AuthorizationCode | ClientId

  /** A registered OAuth application, as the toolkit's adapter returns it. */
  datatype Client = Client(clientId: string, authorizationGrantType: string)

  datatype FieldError =
    | Required
    | TooLong(limit: nat, length: nat)
    | NullCharacters
    | UnknownClient(clientId: string)
    | UnknownCode(code: string)

  /** The human-readable message of each error. */
  function Message(e: FieldError): string {
    match e
    case Required => "This field is required."
    case TooLong(limit, length) =>
      "Ensure this value has at most " + NatToString(limit) + " characters (it has " + NatToString(length) + ")."
    case NullCharacters => "Null characters are not allowed."
    case UnknownClient(id) => "Client id [" + id + "] does not exist."
    case UnknownCode(code) => "Can't find user associated with [" + code + "] authorization code."
  }

  /** `Message(e)` holds `v` between positions `i` and `i + |v|`. */
  predicate ShowsAt(m: string, v: string, i: nat) {
    i + |v| <= |m| && m[i..i + |v|] == v
  }

  /** The two lookup errors quote the submitted value between brackets. */
  lemma MessageQuotesValue(e: FieldError)
    ensures e.UnknownClient? ==> ShowsAt(Message(e), e.clientId, 11) && Message(e)[10] == '['
    ensures e.UnknownCode? ==> ShowsAt(Message(e), e.code, 33) && Message(e)[32] == '['
  {
    match e
    case UnknownClient(id) =>
      assert Message(e) == "Client id [" + id + "] does not exist.";
      assert Message(e)[11..11 + |id|] == id;
    case UnknownCode(code) =>
      assert Message(e) == "Can't find user associated with [" + code + "] authorization code.";
      assert Message(e)[33..33 + |code|] == code;
    case _ =>
  }

  /** The characters Python's `str.strip()` removes: those `str.isspace()`
      accepts. */
  predicate IsSpace(c: char) {
    || c in {' ', '\t', '\n', '\r', '\U{0B}', '\U{0C}', '\U{1C}', '\U{1D}', '\U{1E}', '\U{1F}', '\U{85}', '\U{A0}'}
    || c in {'\U{1680}', '\U{2028}', '\U{2029}', '\U{202F}', '\U{205F}', '\U{3000}'}
    || '\U{2000}' <= c <= '\U{200A}'
  }

  function StripLeft(s: string): (r: string)
    ensures |r| <= |s| && r == s[|s| - |r|..]
    ensures r == [] || !IsSpace(r[0])
    ensures forall i :: 0 <= i < |s| - |r| ==> IsSpace(s[i])
  {
    if s != [] && IsSpace(s[0]) then StripLeft(s[1..]) else s
  }

  function StripRight(s: string): (r: string)
    ensures |r| <= |s| && r == s[..|r|]
    ensures r == [] || !IsSpace(r[|r| - 1])
    ensures forall i :: |r| <= i < |s| ==> IsSpace(s[i])
  {
    if s != [] && IsSpace(s[|s| - 1]) then StripRight(s[..|s| - 1]) else s
  }

  /** `str.strip()`: the longest middle part without outer whitespace. */
  function Strip(s: string): (r: string)
    ensures r == [] || (!IsSpace(r[0]) && !IsSpace(r[|r| - 1]))
    ensures |r| <= |StripLeft(s)| <= |s| && r == s[|s| - |StripLeft(s)|..][..|r|]
  {
    var l := StripLeft(s);
    var r := StripRight(l);
    assert r != [] ==> r[0] == l[0];
    r
  }

  /** Only whitespace is removed: the stripped text starts at
      `|s| - |StripLeft(s)|`, and every character before or after it is
      whitespace. */
  lemma StripRemovesOnlySpace(s: string)
    ensures var k := |s| - |StripLeft(s)|;
      && k + |Strip(s)| <= |s| && s[k..k + |Strip(s)|] == Strip(s)
      && (forall i :: 0 <= i < k ==> IsSpace(s[i]))
      && (forall i :: k + |Strip(s)| <= i < |s| ==> IsSpace(s[i]))
  {
    var l := StripLeft(s);
    var k := |s| - |l|;
    var r := StripRight(l);
    assert l == s[k..] && r == l[..|r|];
    forall i | k + |r| <= i < |s| ensures IsSpace(s[i]) {
      assert s[i] == l[i - k];
    }
  }

  /** What cleaning one `CharField` gives: the cleaned text or its errors. */
  datatype Cleaned = Accepted(text: string) | Rejected(errors: seq<FieldError>)

  /** Django's `CharField.clean` with `required=True` and `strip=True`: the raw
      value is stripped; an empty result is "required"; otherwise the value is
      checked against the maximum length and for NUL characters, and every
      failing validator contributes its error. */
  function CleanCharField(raw: Option<string>, maxLength: Option<nat>): (c: Cleaned)
    ensures c.Rejected? ==> c.errors != []
    ensures c.Accepted? ==> c.text != [] && raw.Some?
    ensures c.Accepted? ==> maxLength.Some? ==> |c.text| <= maxLength.value
    ensures c.Accepted? ==> '\0' !in c.text
    ensures raw.None? ==> c == Rejected([Required])
    // a blank value is required; a stripped value that passes both validators
    // is accepted as that stripped text
    ensures raw.Some? && Strip(raw.value) == "" ==> c == Rejected([Required])
    ensures raw.Some? ==>
      var v := Strip(raw.value);
      v != "" && (maxLength.None? || |v| <= maxLength.value) && '\0' !in v ==> c == Accepted(v)
    ensures c.Accepted? ==> c.text == Strip(raw.value)
  {
    var v := if raw.None? then "" else Strip(raw.value);
    if v == "" then Rejected([Required])
    else
      var errors :=
        (if maxLength.Some? && |v| > maxLength.value then [TooLong(maxLength.value, |v|)] else [])
        + (if '\0' in v then [NullCharacters] else []);
      if errors == [] then Accepted(v) else Rejected(errors)
  }

  /** Every validator a non-blank value fails adds its own error, so a value
      both too long and holding NUL carries both errors. */
  lemma CleanCharFieldNamesFailures(raw: string, maxLength: Option<nat>)
    requires Strip(raw) != ""
    ensures var v := Strip(raw);
      var c := CleanCharField(Some(raw), maxLength);
      && (maxLength.Some? && |v| > maxLength.value ==> c.Rejected? && TooLong(maxLength.value, |v|) in c.errors)
      && ('\0' in v ==> c.Rejected? && NullCharacters in c.errors)
  {
  }

  /** Field-level cleaning of `authorization_code` (`max_length=32`). */
  function CleanCode(data: map<string, string>): Cleaned {
    CleanCharField(if "authorization_code" in data then Some(data["authorization_code"]) else None, Some(CodeMaxLength))
  }

  /** Field-level cleaning of `client_id` (no length limit). */
  function CleanClientId(data: map<string, string>): Cleaned {
    CleanCharField(if "client_id" in data then Some(data["client_id"]) else None, None)
  }

  /** A code that passes field cleaning is never longer than a generated one. */
  lemma AcceptedCodeFitsColumn(data: map<string, string>)
    requires CleanCode(data).Accepted?
    ensures 0 < |CleanCode(data).text| <= CodeMaxLength
  {
  }

  /** The bound form after `is_valid()`: its errors and its `cleaned_data`. */
  datatype BoundForm = BoundForm(
    errors: map<Field, seq<FieldError>>,
    authorizationCode: Option<string>,
    clientId: Option<string>,
    client: Option<Client>,
    user: Option<UserId>)
  {
    predicate IsValid() { errors == map[] }
  }

  /** The user whose stored code equals `code` exactly, if any. */
  predicate HoldsCode(rows: Rows, u: UserId, code: string) {
    u in rows && rows[u] == Some(code)
  }

  /** `e` holds exactly the errors a bound form collects: on each field, its
      own cleaning errors when it fails to clean, else the error of its lookup
      in `clean()` when that fails, and nothing otherwise. */
  ghost predicate FormErrorsAre(e: map<Field, seq<FieldError>>, data: map<string, string>,
                                clients: map<string, Client>, rows: Rows) {
    var code, client := CleanCode(data), CleanClientId(data);
    && e.Keys <= {AuthorizationCode, ClientId}
    && (AuthorizationCode in e <==> code.Rejected? || !exists u :: HoldsCode(rows, u, code.text))
    && (AuthorizationCode in e ==>
          e[AuthorizationCode] == if code.Rejected? then code.errors else [UnknownCode(code.text)])
    && (ClientId in e <==> client.Rejected? || client.text !in clients)
    && (ClientId in e ==>
          e[ClientId] == if client.Rejected? then client.errors else [UnknownClient(client.text)])
  }

  /** `form.is_valid()`: field cleaning followed by `clean()`. The uniqueness of
      stored codes is what lets `User.objects.get` find at most one user. */
  method Validate(data: map<string, string>, clients: map<string, Client>, rows: Rows) returns (form: BoundForm)
    requires CodesUnique(rows)
    // field-level errors come first and stop the lookups of that field
    ensures CleanCode(data).Rejected? ==> AuthorizationCode in form.errors && form.errors[AuthorizationCode] == CleanCode(data).errors
    ensures CleanClientId(data).Rejected? ==> ClientId in form.errors && form.errors[ClientId] == CleanClientId(data).errors
    // the client lookup: an unknown id is an error on `client_id` only
    ensures CleanClientId(data).Accepted? ==>
      var id := CleanClientId(data).text;
      && (id in clients ==> ClientId !in form.errors && form.client == Some(clients[id]) && form.clientId == Some(id))
      && (id !in clients ==> ClientId in form.errors && form.errors[ClientId] == [UnknownClient(id)] && form.client.None? && form.clientId.None?)
    // the user lookup: exact equality with a stored code, error on `authorization_code` only
    ensures CleanCode(data).Accepted? ==>
      var code := CleanCode(data).text;
      && ((exists u :: HoldsCode(rows, u, code)) ==>
            AuthorizationCode !in form.errors && form.user.Some? && HoldsCode(rows, form.user.value, code)
            && form.authorizationCode == Some(code))
      && ((!exists u :: HoldsCode(rows, u, code)) ==>
            AuthorizationCode in form.errors && form.errors[AuthorizationCode] == [UnknownCode(code)] && form.user.None? && form.authorizationCode.None?)
    ensures FormErrorsAre(form.errors, data, clients, rows)
    // a valid form carries both the client and the user holding the code
    ensures form.IsValid() <==>
      && CleanCode(data).Accepted? && CleanClientId(data).Accepted?
      && CleanClientId(data).text in clients
      && exists u :: HoldsCode(rows, u, CleanCode(data).text)
    ensures form.IsValid() ==>
      && form.client == Some(clients[CleanClientId(data).text])
      && form.authorizationCode == Some(CleanCode(data).text)
      && form.user.Some? && HoldsCode(rows, form.user.value, CleanCode(data).text)
  {
    var codeField, clientField := CleanCode(data), CleanClientId(data);
    var errors: map<Field, seq<FieldError>> := map[];
    var authorizationCode: Option<string> := None;
    var clientId: Option<string> := None;
    var client: Option<Client> := None;
    var user: Option<UserId> := None;

    // _clean_fields, in declaration order
    match codeField {
      case Accepted(text) => authorizationCode := Some(text);
      case Rejected(es) => errors := errors[AuthorizationCode := es];
    }
    match clientField {
      case Accepted(text) => clientId := Some(text);
      case Rejected(es) => errors := errors[ClientId := es];
    }

    // clean(): the client lookup
    if ClientId !in errors {
      var id := clientId.GetOr("");
      if id in clients {
        client := Some(clients[id]);
      } else {
        // add_error also removes the field from cleaned_data
        errors := errors[ClientId := [UnknownClient(id)]];
        clientId := None;
      }
    }

    // clean(): the user lookup
    if AuthorizationCode !in errors {
      var code := authorizationCode.GetOr("");
      if u :| u in rows && HoldsCode(rows, u, code) {
        user := Some(u);
      } else {
        errors := errors[AuthorizationCode := [UnknownCode(code)]];
        authorizationCode := None;
      }
    }

    form := BoundForm(errors, authorizationCode, clientId, client, user);
  }

  /** Once another row holds a code, no second user can be found for it: the
      user a valid form names is the only holder of the submitted code. */
  lemma HolderIsUnique(rows: Rows, u: UserId, v: UserId, code: string)
    requires CodesUnique(rows)
    requires HoldsCode(rows, u, code) && HoldsCode(rows, v, code)
    ensures u == v
  {
  }
}

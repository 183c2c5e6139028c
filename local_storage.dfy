/**
 * The authentication storage helpers of src/utils/localStorage.js over the browser's
 * string-to-string `localStorage`, held here as a map. `JSON.parse` and `JSON.stringify` are
 * parameters: `parse` returns `None` where `JSON.parse` throws.
 */
module LocalStorage {
  import opened Wrappers

  /** A parsed JSON value. Numbers are integers here. */
  datatype Json =
    | JNull
    | JBool(b: bool)
    | JNum(n: int)
    | JStr(s: string)
    | JArr(elems: seq<Json>)
    | JObj(fields: map<string, Json>)

  /** JavaScript truthiness of a parsed value: `null`, `false`, `0` and `""` are falsy. */
  predicate Truthy(j: Json)
  {
    match j
    case JNull => false
    case JBool(b) => b
    case JNum(n) => n != 0
    case JStr(s) => s != ""
    case JArr(_) => true
    case JObj(_) => true
  }

  /** A stored text that counts as "nothing stored": missing, empty, `"null"` or `"undefined"`. */
  predicate IsBlank(v: Option<string>)
  {
    v.None? || v.value == "" || v.value == "null" || v.value == "undefined"
  }

  /** `localStorage.getItem(key)`: `null` (`None`) for a key that is not stored. */
  function GetItem(items: map<string, string>, key: string): (r: Option<string>)
    ensures r.Some? <==> key in items
    ensures r.Some? ==> r.value == items[key]
  {
    if key in items then Some(items[key]) else None
  }

  /** The value `getStoredToken` returns: the stored token unless it is blank. */
  function TokenOf(items: map<string, string>): (r: Option<string>)
    ensures r.None? <==> IsBlank(GetItem(items, "token"))
    ensures r.Some? ==> "token" in items && r.value == items["token"]
  {
    var t := GetItem(items, "token");
    if IsBlank(t) then None else t
  }

  /**
   * The value `getStoredUser` returns: `None` when the stored text is blank or does not parse,
   * and also when the parsed value is falsy, is not an object (`typeof` is `'object'` for
   * objects and arrays only, once `null` is excluded) or has no truthy `id`.
   */
  function UserOf(items: map<string, string>, parse: string -> Option<Json>): (r: Option<Json>)
    ensures r.Some? <==>
      !IsBlank(GetItem(items, "user")) && parse(items["user"]).Some? &&
      parse(items["user"]).value.JObj? && "id" in parse(items["user"]).value.fields &&
      Truthy(parse(items["user"]).value.fields["id"])
    ensures r.Some? ==> r == parse(items["user"])
  {
    var text := GetItem(items, "user");
    if IsBlank(text) then None
    else
      match parse(text.value)
      case None => None
      case Some(u) =>
        if !Truthy(u) then None
        else if !(u.JObj? || u.JArr?) then None
        else if !(u.JObj? && "id" in u.fields && Truthy(u.fields["id"])) then None
        else Some(u)
  }

  /** The store after `setAuthData`: both keys written when the token and the user are truthy. */
  function AfterSet(items: map<string, string>, token: string, user: Json, stringify: Json -> string)
    : (r: map<string, string>)
    ensures token != "" && Truthy(user) ==>
      "token" in r && r["token"] == token && "user" in r && r["user"] == stringify(user)
    ensures !(token != "" && Truthy(user)) ==> r == items
    ensures forall k :: k != "token" && k != "user" ==> (k in r <==> k in items)
    ensures forall k :: k != "token" && k != "user" && k in items ==> r[k] == items[k]
  {
    if token != "" && Truthy(user) then items["token" := token]["user" := stringify(user)] else items
  }

  /** The browser's `localStorage`. */
  class Store {
    var items: map<string, string>

    constructor (initial: map<string, string>)
      ensures items == initial
    {
      items := initial;
    }

    /** `getStoredToken`. */
    method GetStoredToken() returns (r: Option<string>)
      ensures r == TokenOf(items)
      ensures r.None? <==> IsBlank(GetItem(items, "token"))
    {
      var token := GetItem(items, "token");
      if token.None? || token.value == "" || token.value == "null" || token.value == "undefined" {
        return None;
      }
      return token;
    }

    /** `getStoredUser`. */
    method GetStoredUser(parse: string -> Option<Json>) returns (r: Option<Json>)
      ensures r == UserOf(items, parse)
    {
      var userStr := GetItem(items, "user");
      if userStr.None? || userStr.value == "" || userStr.value == "null" || userStr.value == "undefined" {
        return None;
      }
      var user := parse(userStr.value);
      if user.None? {
        return None;
      }
      var u := user.value;
      if !Truthy(u) || !(u.JObj? || u.JArr?) || !(u.JObj? && "id" in u.fields && Truthy(u.fields["id"])) {
        return None;
      }
      return Some(u);
    }

    /**
     * `setAuthData(token, user)`: only when the token is a non-empty string and the user is
     * truthy are both keys written, the user as its `JSON.stringify` text; otherwise nothing changes.
     */
    method SetAuthData(token: string, user: Json, stringify: Json -> string)
      modifies this
      ensures items == AfterSet(old(items), token, user, stringify)
    {
      if token != "" && Truthy(user) {
        items := items["token" := token];
        items := items["user" := stringify(user)];
      }
    }

    /** `clearAuthData`: both keys are removed, every other key is kept. */
    method ClearAuthData()
      modifies this
      ensures items == old(items) - {"token", "user"}
      ensures TokenOf(items).None?
    {
      items := items - {"token"};
      items := items - {"user"};
      ClearedHasNoToken(old(items));
    }
  }

  /** After both keys are removed no token and no user is read back, whatever else is stored. */
  lemma ClearedHasNoToken(items: map<string, string>)
    ensures TokenOf(items - {"token", "user"}).None?
    ensures forall parse :: UserOf(items - {"token", "user"}, parse).None?
  {
  }

  /**
   * After `setAuthData(t, u)` with a truthy user, `getStoredToken` gives back `t` unless `t` is
   * blank; in particular the texts `"null"` and `"undefined"` are written but read back as no token.
   */
  lemma TokenAfterSet(items: map<string, string>, token: string, user: Json, stringify: Json -> string)
    requires Truthy(user)
    ensures token != "" && token != "null" && token != "undefined" ==>
      TokenOf(AfterSet(items, token, user, stringify)) == Some(token)
    ensures token == "null" || token == "undefined" ==>
      TokenOf(AfterSet(items, token, user, stringify)).None?
  {
  }

  /**
   * When `JSON.parse` inverts `JSON.stringify` on the user, and the user is an object with a
   * truthy `id` whose text is not blank, `getStoredUser` gives back the user that was set.
   */
  lemma UserRoundTrip(items: map<string, string>, token: string, user: Json,
                      stringify: Json -> string, parse: string -> Option<Json>)
    requires token != ""
    requires user.JObj? && "id" in user.fields && Truthy(user.fields["id"])
    requires !IsBlank(Some(stringify(user)))
    requires parse(stringify(user)) == Some(user)
    ensures UserOf(AfterSet(items, token, user, stringify), parse) == Some(user)
  {
  }
}

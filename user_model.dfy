/** The user schema (services/user-service/models/user.js): the field rules a stored user
    obeys, and the `toObject` transform that shapes every user the service returns. */
module UserModel {
  import opened Results

  /** A field value of a plain object produced from a user document. */
  datatype Value = ObjectId(hex: string) | Str(s: string) | Num(n: int) | Date(iso: string)

  /** The members of `ret`, the plain object `toObject` hands to the transform. */
  type Fields = map<string, Value>

  /** What the transform returns: `ret` with `id` set from `_id`, and `_id`, `__v` and
      `password` removed. Every other member passes through unchanged. */
  function Projected(ret: Fields): (r: Fields)
    requires "_id" in ret && ret["_id"].ObjectId?
    ensures "id" in r && r["id"] == Str(ret["_id"].hex)
    ensures "_id" !in r && "__v" !in r && "password" !in r
    ensures forall k :: k in ret && k !in {"_id", "__v", "password", "id"} ==> k in r && r[k] == ret[k]
    ensures r.Keys == ret.Keys - {"_id", "__v", "password"} + {"id"}
  {
    ret["id" := Str(ret["_id"].hex)] - {"_id", "__v", "password"}
  }

  /** The object the transform mutates. */
  class PlainObject {
    var fields: Fields

    constructor (fields: Fields)
      ensures this.fields == fields
    {
      this.fields := fields;
    }

    /** `transform(doc, ret)`: one assignment and three deletes on `ret`. Every user
        document has an ObjectId `_id`, whose `toString()` is its hex text. */
    method Transform()
      requires "_id" in fields && fields["_id"].ObjectId?
      modifies this
      ensures fields == Projected(old(fields))
    {
      fields := fields["id" := Str(fields["_id"].hex)];
      fields := fields - {"_id"};
      fields := fields - {"__v"};
      fields := fields - {"password"};
    }
  }

  /** The password never reaches the returned object: two documents that differ only in
      their password give the same result, and that result has no password. */
  lemma ProjectionHidesPassword(ret: Fields, p1: Value, p2: Value)
    requires "_id" in ret && ret["_id"].ObjectId?
    ensures Projected(ret["password" := p1]) == Projected(ret["password" := p2])
    ensures "password" !in Projected(ret["password" := p1])
  {
    var a, b := Projected(ret["password" := p1]), Projected(ret["password" := p2]);
    assert a.Keys == b.Keys;
    forall k | k in a.Keys ensures a[k] == b[k] {
    }
  }

  /** A white-space or line-terminator character, as `String.prototype.trim` strips them. */
  predicate IsJsWhitespace(c: char)
  {
    var n := c as int;
    (0x09 <= n <= 0x0D) || n == 0x20 || n == 0xA0 || n == 0x1680 || (0x2000 <= n <= 0x200A)
    || n == 0x2028 || n == 0x2029 || n == 0x202F || n == 0x205F || n == 0x3000 || n == 0xFEFF
  }

  /** Every character of `t` is white space. */
  predicate AllWhite(t: string)
  {
    forall k :: 0 <= k < |t| ==> IsJsWhitespace(t[k])
  }

  function TrimStart(s: string): (r: string)
    ensures |r| <= |s| && r == s[|s| - |r|..]
    ensures AllWhite(s[..|s| - |r|])
    ensures r == [] || !IsJsWhitespace(r[0])
  {
    if s != [] && IsJsWhitespace(s[0]) then
      var r := TrimStart(s[1..]);
      assert s[..|s| - |r|] == [s[0]] + s[1..][..|s| - 1 - |r|];
      r
    else s
  }

  function TrimEnd(s: string): (r: string)
    ensures |r| <= |s| && r == s[..|r|]
    ensures AllWhite(s[|r|..])
    ensures r == [] || !IsJsWhitespace(r[|r| - 1])
  {
    if s != [] && IsJsWhitespace(s[|s| - 1]) then
      var r := TrimEnd(s[..|s| - 1]);
      assert s[|r|..] == s[..|s| - 1][|r|..] + [s[|s| - 1]];
      r
    else s
  }

  /** `s.trim()`: the schema's `trim: true` setter. */
  function Trim(s: string): (r: string)
    ensures r == [] || (!IsJsWhitespace(r[0]) && !IsJsWhitespace(r[|r| - 1]))
    ensures StrippedFrom(r, s)
  {
    var t := TrimStart(s);
    var r := TrimEnd(t);
    assert r != [] ==> r[0] == t[0];
    TrimParts(s, t, r);
    r
  }

  /** White space off the front, then white space off the back of what is left, leaves
      the middle of `s` between two runs of white space. */
  lemma TrimParts(s: string, t: string, r: string)
    requires |t| <= |s| && t == s[|s| - |t|..] && AllWhite(s[..|s| - |t|])
    requires |r| <= |t| && r == t[..|r|] && AllWhite(t[|r|..])
    ensures WhiteAround(r, s, |s| - |t|)
  {
    var i := |s| - |t|;
    SliceOfSuffix(s, i, |r|);
    assert t[|r|..] == s[i + |r|..];
  }

  lemma SliceOfSuffix(s: string, i: nat, n: nat)
    requires i + n <= |s|
    ensures s[i..][..n] == s[i..i + n]
  {
  }

  /** `s` is white space, then `r` at index `i`, then white space. */
  predicate WhiteAround(r: string, s: string, i: nat)
  {
    i + |r| <= |s| && r == s[i..i + |r|] && AllWhite(s[..i]) && AllWhite(s[i + |r|..])
  }

  /** `r` is `s` with some white space removed at either end and nothing else. */
  ghost predicate StrippedFrom(r: string, s: string)
  {
    exists i :: 0 <= i <= |s| && WhiteAround(r, s, i)
  }

  function LowerChar(c: char): char
  {
    if 'A' <= c <= 'Z' then (c as int + 32) as char else c
  }

  /** `s.toLowerCase()`: the schema's `lowercase: true` setter (ASCII letters only). */
  function Lower(s: string): (r: string)
    ensures |r| == |s| && forall i :: 0 <= i < |s| ==> r[i] == LowerChar(s[i])
  {
    seq(|s|, i requires 0 <= i < |s| => LowerChar(s[i]))
  }

  lemma {:induction false} TrimStartLower(s: string)
    ensures TrimStart(Lower(s)) == Lower(TrimStart(s))
  {
    if s != [] {
      var l := Lower(s);
      assert l[0] == LowerChar(s[0]);
      assert l[1..] == Lower(s[1..]);
      if IsJsWhitespace(s[0]) {
        assert TrimStart(l) == TrimStart(l[1..]);
        TrimStartLower(s[1..]);
      } else {
        assert !IsJsWhitespace(l[0]);
        assert TrimStart(l) == l;
      }
    }
  }

  lemma {:induction false} TrimEndLower(s: string)
    ensures TrimEnd(Lower(s)) == Lower(TrimEnd(s))
  {
    if s != [] {
      assert Lower(s)[..|s| - 1] == Lower(s[..|s| - 1]);
      if IsJsWhitespace(s[|s| - 1]) {
        TrimEndLower(s[..|s| - 1]);
      }
    }
  }

  /** Trimming and lower-casing commute, so the order in which the two setters of
      `email` run does not matter. */
  lemma TrimLowerCommute(s: string)
    ensures Trim(Lower(s)) == Lower(Trim(s))
  {
    TrimStartLower(s);
    TrimEndLower(TrimStart(s));
  }

  lemma {:induction false} TrimIdempotent(s: string)
    ensures Trim(Trim(s)) == Trim(s)
  {
    var r := Trim(s);
    assert TrimStart(r) == r;
    assert TrimEnd(r) == r;
  }

  /** A user as it is stored. */
  datatype User = User(name: string, email: string, password: string)

  /** The fields of a create request; None is a field left out. */
  datatype UserInput = UserInput(name: Option<string>, email: Option<string>, password: Option<string>)

  /** The setter of `name`: `trim`. */
  function SetName(v: Option<string>): Option<string>
  {
    if v.Some? then Some(Trim(v.value)) else None
  }

  /** The setters of `email`: `trim` and `lowercase`. */
  function SetEmail(v: Option<string>): Option<string>
  {
    if v.Some? then Some(Lower(Trim(v.value))) else None
  }

  /** `required: true` on a String path: the value is present and not the empty string. */
  predicate Present(v: Option<string>)
  {
    v.Some? && v.value != ""
  }

  /** One of the three paths of the schema. */
  predicate IsPath(p: string)
  {
    p == "name" || p == "email" || p == "password"
  }

  /** The paths whose `required` validator fails, in the schema's order. */
  function FailingPaths(nameOk: bool, emailOk: bool, passwordOk: bool): (paths: seq<string>)
    ensures paths == [] <==> nameOk && emailOk && passwordOk
    ensures ("name" in paths <==> !nameOk) && ("email" in paths <==> !emailOk) && ("password" in paths <==> !passwordOk)
    ensures forall k :: 0 <= k < |paths| ==> IsPath(paths[k])
  {
    (if nameOk then [] else ["name"]) + (if emailOk then [] else ["email"]) + (if passwordOk then [] else ["password"])
  }

  /** The setters, then the `required` validators, in the schema's order of paths. An
      `Err` lists the paths that failed. */
  function CastUser(input: UserInput): (r: Result<User, seq<string>>)
    ensures r.Ok? <==> Present(SetName(input.name)) && Present(SetEmail(input.email)) && Present(input.password)
    ensures r.Ok? ==> r.value.password == input.password.value
    ensures r.Err? ==> r.error != [] && forall k :: 0 <= k < |r.error| ==> IsPath(r.error[k])
  {
    var name := SetName(input.name);
    var email := SetEmail(input.email);
    var password := input.password;
    var paths := FailingPaths(Present(name), Present(email), Present(password));
    if paths == [] then
      Ok(User(name.value, email.value, password.value))
    else
      Err(paths)
  }

  /** The stored form the setters produce: `name` trimmed, `email` trimmed and in lower
      case, and none of them empty. */
  predicate Normalized(u: User)
  {
    && u.name != "" && u.email != "" && u.password != ""
    && Trim(u.name) == u.name && Trim(u.email) == u.email && Lower(u.email) == u.email
  }

  /** A user is accepted exactly when all three fields survive their setters non-empty;
      the stored name is trimmed, the stored email trimmed and lower-cased, the password
      kept as given, and a rejection names exactly the failing paths. */
  lemma CastUserFields(input: UserInput)
    ensures var r := CastUser(input);
            && (r.Ok? <==> Present(SetName(input.name)) && Present(SetEmail(input.email)) && Present(input.password))
            && (r.Ok? ==> r.value.name == Trim(input.name.value)
                          && r.value.email == Lower(Trim(input.email.value))
                          && r.value.password == input.password.value)
            && (r.Err? ==> ("name" in r.error <==> !Present(SetName(input.name))))
            && (r.Err? ==> ("email" in r.error <==> !Present(SetEmail(input.email))))
            && (r.Err? ==> ("password" in r.error <==> !Present(input.password)))
  {
  }

  /** A record missing any of the three fields is rejected. */
  lemma MissingFieldRejected(input: UserInput)
    requires input.name.None? || input.email.None? || input.password.None?
    ensures CastUser(input).Err?
  {
  }

  /** What is stored is normalised. */
  lemma {:induction false} CastUserNormalizes(input: UserInput)
    requires CastUser(input).Ok?
    ensures Normalized(CastUser(input).value)
  {
    var u := CastUser(input).value;
    TrimIdempotent(input.name.value);
    var e := input.email.value;
    TrimLowerCommute(e);
    TrimIdempotent(e);
    LowerIdempotent(Trim(e));
    TrimLowerCommute(Trim(e));
  }

  lemma LowerIdempotent(s: string)
    ensures Lower(Lower(s)) == Lower(s)
  {
  }

  /** Casting a stored user's own fields again gives back the same user. */
  lemma StoredUserRoundTrip(u: User)
    requires Normalized(u)
    ensures CastUser(UserInput(Some(u.name), Some(u.email), Some(u.password))) == Ok(u)
  {
  }

  /** The `unique` index on `email`. */
  ghost predicate EmailsUnique(users: seq<User>)
  {
    forall i, j :: 0 <= i < j < |users| ==> users[i].email != users[j].email
  }

  predicate EmailTaken(users: seq<User>, email: string)
  {
    exists i :: 0 <= i < |users| && users[i].email == email
  }

  datatype InsertError = ValidationFailed(paths: seq<string>) | DuplicateEmail(email: string)

  /** Saving a new user: cast and validate, then the unique index rejects a normalised
      email that is already stored. */
  function InsertUser(users: seq<User>, input: UserInput): (r: Result<seq<User>, InsertError>)
    ensures CastUser(input).Err? ==> r == Err(ValidationFailed(CastUser(input).error))
    ensures CastUser(input).Ok? && EmailTaken(users, CastUser(input).value.email) ==>
              r == Err(DuplicateEmail(CastUser(input).value.email))
    ensures CastUser(input).Ok? && !EmailTaken(users, CastUser(input).value.email) ==>
              r == Ok(users + [CastUser(input).value])
    ensures r.Ok? ==> r.value == users + [CastUser(input).value]
    ensures EmailsUnique(users) && r.Ok? ==> EmailsUnique(r.value)
  {
    match CastUser(input)
    case Err(paths) => Err(ValidationFailed(paths))
    case Ok(u) => if EmailTaken(users, u.email) then Err(DuplicateEmail(u.email)) else Ok(users + [u])
  }

  /** Emails differing only in case or surrounding space are the same stored email, so
      the second of two such users is refused. */
  lemma CaseVariantCollides(users: seq<User>, name: string, password: string)
    requires Trim(name) != "" && password != ""
    requires EmailTaken(users, "ann@example.com")
    ensures InsertUser(users, UserInput(Some(name), Some("  Ann@Example.com "), Some(password)))
            == Err(DuplicateEmail("ann@example.com"))
  {
    ExampleEmailNormalizes();
    var input := UserInput(Some(name), Some("  Ann@Example.com "), Some(password));
    assert SetEmail(input.email) == Some("ann@example.com");
    assert CastUser(input) == Ok(User(Trim(name), "ann@example.com", password));
  }

  lemma ExampleEmailNormalizes()
    ensures Lower(Trim("  Ann@Example.com ")) == "ann@example.com"
  {
    ExampleTrimStart();
    ExampleTrimEnd();
    assert Trim("  Ann@Example.com ") == "Ann@Example.com";
    ExampleLower();
  }

  lemma ExampleLower()
    ensures Lower("Ann@Example.com") == "ann@example.com"
  {
    var x, y := "Ann@Example.com", "ann@example.com";
    forall i | 0 <= i < |x| ensures LowerChar(x[i]) == y[i] {
      if i == 0 || i == 4 {
        assert LowerChar(x[i]) == y[i];
      } else {
        assert !('A' <= x[i] <= 'Z') && x[i] == y[i];
      }
    }
  }

  lemma ExampleTrimStart()
    ensures TrimStart("  Ann@Example.com ") == "Ann@Example.com "
  {
    assert !IsJsWhitespace('A') && IsJsWhitespace(' ');
    assert TrimStart("Ann@Example.com ") == "Ann@Example.com ";
    assert TrimStart(" Ann@Example.com ") == "Ann@Example.com ";
  }

  lemma ExampleTrimEnd()
    ensures TrimEnd("Ann@Example.com ") == "Ann@Example.com"
  {
    assert !IsJsWhitespace('m') && IsJsWhitespace(' ');
    assert TrimEnd("Ann@Example.com") == "Ann@Example.com";
  }
}

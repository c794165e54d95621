/** `getNestedValue` (src/utils/helpers.jsx:44-46): resolve a dotted key path
    against a user record with optional chaining, and fall back to `''` when
    the result is missing or falsy. */
module NestedValue {
  import opened Wrappers
  import opened UserModel

  /** The JavaScript values a path over a user record can reach. */
  datatype JsValue =
    | Undefined
    | Num(n: int)
    | Str(s: string)
    | UserObject(user: User)
    | CompanyObject(company: Company)

  /** `v?.[key]`: a missing property, and any property of `undefined`, is
      `undefined`. */
  function Property(v: JsValue, key: string): JsValue
  {
    match v
    case UserObject(u) =>
      if key == "id" then Num(u.id)
      else if key == "name" then Str(u.name)
      else if key == "username" then Str(u.username)
      else if key == "email" then Str(u.email)
      else if key == "phone" then Str(u.phone)
      else if key == "website" then Str(u.website)
      else if key == "company" then (if u.company.Some? then CompanyObject(u.company.value) else Undefined)
      else Undefined
    case CompanyObject(c) =>
      if key == "name" then Str(c.name) else Undefined
    case _ => Undefined
  }

  /** `path.split('.')`. */
  function Split(path: string): (parts: seq<string>)
    ensures |parts| >= 1
    ensures forall i :: 0 <= i < |parts| ==> '.' !in parts[i]
  {
    if path == [] then [""]
    else
      var rest := Split(path[1..]);
      if path[0] == '.' then [""] + rest
      else [[path[0]] + rest[0]] + rest[1..]
  }

  /** `parts.join('.')`. */
  function Join(parts: seq<string>): string
    requires |parts| >= 1
  {
    if |parts| == 1 then parts[0] else parts[0] + "." + Join(parts[1..])
  }

  /** Splitting at the dots and joining again gives back the path. */
  lemma {:induction false} SplitJoin(path: string)
    ensures Join(Split(path)) == path
  {
    if path != [] {
      var rest := Split(path[1..]);
      SplitJoin(path[1..]);
      if path[0] != '.' {
        if |rest| == 1 {
        } else {
          assert Join(rest) == rest[0] + "." + Join(rest[1..]);
        }
      }
    }
  }

  /** Joining dot-free parts and splitting again gives back the parts. */
  lemma {:induction false} JoinSplit(parts: seq<string>)
    requires |parts| >= 1
    requires forall i :: 0 <= i < |parts| ==> '.' !in parts[i]
    ensures Split(Join(parts)) == parts
    decreases |Join(parts)|
  {
    if |parts| == 1 {
      SplitDotFree(parts[0]);
    } else {
      JoinSplit(parts[1..]);
      SplitPrefix(parts[0], Join(parts[1..]));
    }
  }

  lemma {:induction false} SplitDotFree(s: string)
    requires '.' !in s
    ensures Split(s) == [s]
  {
    if s != [] {
      assert '.' !in s[1..] by {
        forall c | c in s[1..] ensures c in s { }
      }
      SplitDotFree(s[1..]);
      assert [s[0]] + s[1..] == s;
    }
  }

  lemma {:induction false} SplitPrefix(a: string, b: string)
    requires '.' !in a
    ensures Split(a + "." + b) == [a] + Split(b)
  {
    if a == [] {
      assert a + "." + b == "." + b;
      assert ("." + b)[1..] == b;
    } else {
      assert '.' !in a[1..] by {
        forall c | c in a[1..] ensures c in a { }
      }
      SplitPrefix(a[1..], b);
      var x := a + "." + b;
      assert x[0] == a[0] && x[1..] == a[1..] + "." + b;
      assert [x[0]] + a[1..] == a;
    }
  }

  /** `keys.reduce((current, key) => current?.[key], v)`: after at least one
      step the record itself can no longer be the result. */
  function Resolve(v: JsValue, keys: seq<string>): (r: JsValue)
    ensures keys != [] ==> !r.UserObject?
    decreases |keys|
  {
    if keys == [] then v else Resolve(Property(v, keys[0]), keys[1..])
  }

  /** JavaScript truthiness of a reachable value. */
  predicate Truthy(v: JsValue)
  {
    match v
    case Undefined => false
    case Num(n) => n != 0
    case Str(s) => s != ""
    case _ => true
  }

  function GetNestedValue(u: User, path: string): (r: JsValue)
    ensures r != Undefined && !r.UserObject?
    ensures Truthy(r) || r == Str("")
  {
    var v := Resolve(UserObject(u), Split(path));
    if Truthy(v) then v else Str("")
  }

  lemma {:induction false} UndefinedAbsorbs(keys: seq<string>)
    ensures Resolve(Undefined, keys) == Undefined
  {
    if keys != [] {
      UndefinedAbsorbs(keys[1..]);
    }
  }

  lemma {:induction false} ResolveConcat(v: JsValue, a: seq<string>, b: seq<string>)
    ensures Resolve(v, a + b) == Resolve(Resolve(v, a), b)
    decreases |a|
  {
    if a == [] {
      assert a + b == b;
    } else {
      assert (a + b)[1..] == a[1..] + b;
      ResolveConcat(Property(v, a[0]), a[1..], b);
    }
  }

  /** `getNestedValue` never fails: once some prefix of the path resolves to
      `undefined`, the result is `''`. */
  lemma MissingSegmentGivesEmpty(u: User, path: string, k: nat)
    requires k <= |Split(path)|
    requires Resolve(UserObject(u), Split(path)[..k]) == Undefined
    ensures GetNestedValue(u, path) == Str("")
  {
    var keys := Split(path);
    assert keys == keys[..k] + keys[k..];
    ResolveConcat(UserObject(u), keys[..k], keys[k..]);
    UndefinedAbsorbs(keys[k..]);
  }

  lemma ResolveOne(v: JsValue, key: string)
    ensures Resolve(v, [key]) == Property(v, key)
  {
    assert [key][1..] == [];
  }

  /** The value each sortable column resolves to. */
  lemma ColumnValue(u: User, c: Column)
    ensures GetNestedValue(u, ColumnPath(c)) ==
      match c
      case IdColumn => if u.id == 0 then Str("") else Num(u.id)
      case NameColumn => Str(u.name)
      case EmailColumn => Str(u.email)
      case PhoneColumn => Str(u.phone)
      case CompanyNameColumn => if u.company.Some? then Str(u.company.value.name) else Str("")
  {
    var path := ColumnPath(c);
    if c == CompanyNameColumn {
      assert path == "company" + "." + "name";
      SplitPrefix("company", "name");
      SplitDotFree("name");
      assert Split(path) == ["company"] + ["name"];
      ResolveConcat(UserObject(u), ["company"], ["name"]);
      ResolveOne(UserObject(u), "company");
      ResolveOne(Property(UserObject(u), "company"), "name");
    } else {
      SplitDotFree(path);
      ResolveOne(UserObject(u), path);
    }
  }
}

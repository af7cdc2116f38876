/**
 * The parts of an Express request and response that the session-security code
 * touches. A request carries its method, the GraphQL body, headers, the
 * `Authorization` header split into scheme and credentials (as passport-jwt's
 * header parser splits it) and the cookies parsed by cookie-parser. A response
 * records, in order, the `Set-Cookie` instructions that `res.cookie` and
 * `res.clearCookie` append. `Apply` is what a browser's cookie store makes of
 * those instructions.
 */
module Http {
  import opened Wrappers
  import opened Crypto
  import opened SecurityConfig

  datatype Authorization = Authorization(scheme: string, credentials: Wire)

  /** The parsed JSON body of a GraphQL request; `query` is the operation text. */
  datatype Body = Body(query: Option<string>)

  datatype Request = Request(
    verb: string,          // the HTTP method
    body: Option<Body>,
    headers: map<string, Wire>,          // lower-cased header names
    authorization: Option<Authorization>,
    cookies: map<string, Wire>)

  /** `req.cookies[name]`. */
  function CookieValue(req: Request, name: string): (v: Option<Wire>)
    ensures v.Some? <==> name in req.cookies
  {
    if name in req.cookies then Some(req.cookies[name]) else None
  }

  /** `req.headers[name]`. */
  function HeaderValue(req: Request, name: string): (v: Option<Wire>)
    ensures v.Some? <==> name in req.headers
  {
    if name in req.headers then Some(req.headers[name]) else None
  }

  /** One `Set-Cookie` instruction of a response. */
  datatype SetCookie =
    | SetCookie(name: string, value: Wire, options: CookieOptions)
    | ClearCookie(name: string, domain: Option<string>, path: string)   // an empty cookie that has already expired

  /** The response object handlers write cookies to. */
  class Response {
    var setCookies: seq<SetCookie>

    constructor ()
      ensures setCookies == []
    {
      setCookies := [];
    }

    /** `res.cookie(name, value, options)`. */
    method Cookie(name: string, value: Wire, options: CookieOptions)
      modifies this
      ensures setCookies == old(setCookies) + [SetCookie.SetCookie(name, value, options)]
    {
      setCookies := setCookies + [SetCookie.SetCookie(name, value, options)];
    }

    /** `res.clearCookie(name)`: Express then uses path '/' and no domain. */
    method ClearCookie(name: string)
      modifies this
      ensures setCookies == old(setCookies) + [SetCookie.ClearCookie(name, None, "/")]
    {
      setCookies := setCookies + [SetCookie.ClearCookie(name, None, "/")];
    }

    /** `res.clearCookie(name, { domain, path })`: a clear addressed to that domain and path. */
    method ClearCookieWith(name: string, options: CookieOptions)
      modifies this
      ensures setCookies == old(setCookies) + [SetCookie.ClearCookie(name, options.domain, options.path)]
    {
      setCookies := setCookies + [SetCookie.ClearCookie(name, options.domain, options.path)];
    }
  }

  /** A browser tells cookies apart by name, domain and path. */
  datatype CookieKey = CookieKey(name: string, domain: Option<string>, path: string)

  function KeyOf(c: SetCookie): CookieKey {
    match c
    case SetCookie(name, _, options) => CookieKey(name, options.domain, options.path)
    case ClearCookie(name, domain, path) => CookieKey(name, domain, path)
  }

  /** A browser's cookie store after one instruction: a set overwrites its key, a clear removes it. */
  function Step(jar: map<CookieKey, Wire>, c: SetCookie): (r: map<CookieKey, Wire>)
    ensures c.SetCookie? ==> r == jar[KeyOf(c) := c.value]
    ensures c.ClearCookie? ==> r == jar - {KeyOf(c)}
  {
    match c
    case SetCookie(_, value, _) => jar[KeyOf(c) := value]
    case ClearCookie(_, _, _) => jar - {KeyOf(c)}
  }

  /** A browser's cookie store after it has processed the instructions `cs` in order. */
  function Apply(jar: map<CookieKey, Wire>, cs: seq<SetCookie>): map<CookieKey, Wire>
    decreases |cs|
  {
    if cs == [] then jar else Apply(Step(jar, cs[0]), cs[1..])
  }

  /** Processing two batches of instructions is processing their concatenation. */
  lemma {:induction false} ApplyAppend(jar: map<CookieKey, Wire>, a: seq<SetCookie>, b: seq<SetCookie>)
    ensures Apply(jar, a + b) == Apply(Apply(jar, a), b)
    decreases |a|
  {
    if a == [] {
      assert a + b == b;
    } else {
      assert (a + b)[1..] == a[1..] + b;
      ApplyAppend(Step(jar, a[0]), a[1..], b);
    }
  }

  /** A key that no instruction addresses keeps its value. */
  lemma {:induction false} ApplyUntouched(jar: map<CookieKey, Wire>, cs: seq<SetCookie>, k: CookieKey)
    requires forall i :: 0 <= i < |cs| ==> KeyOf(cs[i]) != k
    ensures k in Apply(jar, cs) <==> k in jar
    ensures k in jar ==> Apply(jar, cs)[k] == jar[k]
    decreases |cs|
  {
    if cs != [] {
      assert forall i :: 0 <= i < |cs[1..]| ==> KeyOf(cs[1..][i]) == KeyOf(cs[i + 1]);
      ApplyUntouched(Step(jar, cs[0]), cs[1..], k);
    }
  }

  /** The last instruction for a key decides it: a set leaves its value, a clear leaves nothing. */
  lemma {:induction false} ApplyLast(jar: map<CookieKey, Wire>, cs: seq<SetCookie>, i: nat)
    requires i < |cs|
    requires forall j :: i < j < |cs| ==> KeyOf(cs[j]) != KeyOf(cs[i])
    ensures cs[i].SetCookie? ==> KeyOf(cs[i]) in Apply(jar, cs) && Apply(jar, cs)[KeyOf(cs[i])] == cs[i].value
    ensures cs[i].ClearCookie? ==> KeyOf(cs[i]) !in Apply(jar, cs)
  {
    var pre, post := cs[..i + 1], cs[i + 1..];
    assert cs == pre + post;
    ApplyAppend(jar, pre, post);
    var mid := Apply(jar, pre);
    assert pre == cs[..i] + [cs[i]];
    ApplyAppend(jar, cs[..i], [cs[i]]);
    assert Apply(Apply(jar, cs[..i]), [cs[i]]) == Step(Apply(jar, cs[..i]), cs[i]);
    forall j | 0 <= j < |post| ensures KeyOf(post[j]) != KeyOf(cs[i]) {
      assert post[j] == cs[i + 1 + j];
    }
    ApplyUntouched(mid, post, KeyOf(cs[i]));
  }

  /** Instructions that only clear never add a cookie nor change a value. */
  lemma {:induction false} ClearsOnlyRemove(jar: map<CookieKey, Wire>, cs: seq<SetCookie>)
    requires forall i :: 0 <= i < |cs| ==> cs[i].ClearCookie?
    ensures Apply(jar, cs).Keys <= jar.Keys
    ensures forall k | k in Apply(jar, cs) :: Apply(jar, cs)[k] == jar[k]
    decreases |cs|
  {
    if cs != [] {
      assert forall i :: 0 <= i < |cs[1..]| ==> cs[1..][i] == cs[i + 1];
      ClearsOnlyRemove(Step(jar, cs[0]), cs[1..]);
    }
  }

  /** Instructions that only set never remove a cookie. */
  lemma {:induction false} SetsOnlyAdd(jar: map<CookieKey, Wire>, cs: seq<SetCookie>)
    requires forall i :: 0 <= i < |cs| ==> cs[i].SetCookie?
    ensures jar.Keys <= Apply(jar, cs).Keys
    decreases |cs|
  {
    if cs != [] {
      assert forall i :: 0 <= i < |cs[1..]| ==> cs[1..][i] == cs[i + 1];
      SetsOnlyAdd(Step(jar, cs[0]), cs[1..]);
    }
  }

  /** After a run of clears, every key one of them addressed is gone. */
  lemma ClearsRemoveEach(jar: map<CookieKey, Wire>, cs: seq<SetCookie>, i: nat)
    requires forall j :: 0 <= j < |cs| ==> cs[j].ClearCookie?
    requires i < |cs|
    ensures KeyOf(cs[i]) !in Apply(jar, cs)
  {
    assert cs == cs[..i] + [cs[i]] + cs[i + 1..];
    ApplyAppend(jar, cs[..i] + [cs[i]], cs[i + 1..]);
    ApplyAppend(jar, cs[..i], [cs[i]]);
    var mid := Apply(jar, cs[..i] + [cs[i]]);
    assert KeyOf(cs[i]) !in mid;
    var post := cs[i + 1..];
    assert forall j :: 0 <= j < |post| ==> post[j] == cs[i + 1 + j];
    ClearsOnlyRemove(mid, post);
  }

  /** After a run of sets, every key one of them addressed is present. */
  lemma SetsAddEach(jar: map<CookieKey, Wire>, cs: seq<SetCookie>, i: nat)
    requires forall j :: 0 <= j < |cs| ==> cs[j].SetCookie?
    requires i < |cs|
    ensures KeyOf(cs[i]) in Apply(jar, cs)
  {
    assert cs == cs[..i] + [cs[i]] + cs[i + 1..];
    ApplyAppend(jar, cs[..i] + [cs[i]], cs[i + 1..]);
    ApplyAppend(jar, cs[..i], [cs[i]]);
    var mid := Apply(jar, cs[..i] + [cs[i]]);
    assert KeyOf(cs[i]) in mid;
    var post := cs[i + 1..];
    assert forall j :: 0 <= j < |post| ==> post[j] == cs[i + 1 + j];
    SetsOnlyAdd(mid, post);
  }

  /** Processing a run of clears a second time changes nothing. */
  lemma ClearsIdempotent(jar: map<CookieKey, Wire>, cs: seq<SetCookie>)
    requires forall j :: 0 <= j < |cs| ==> cs[j].ClearCookie?
    ensures Apply(Apply(jar, cs), cs) == Apply(jar, cs)
  {
    var once := Apply(jar, cs);
    var twice := Apply(once, cs);
    ClearsOnlyRemove(once, cs);
    forall k | k in once
      ensures k in twice && twice[k] == once[k]
    {
      forall i | 0 <= i < |cs|
        ensures KeyOf(cs[i]) != k
      {
        ClearsRemoveEach(jar, cs, i);
      }
      ApplyUntouched(once, cs, k);
    }
    assert twice.Keys == once.Keys;
  }
}

/** The token and URL of machine registrations, and the lookup that a registering machine triggers. */
module RegistrationToken {
  import opened Wrappers
  import opened Conditions
  import opened Objects

  const URL_PATH := "/elemental/registration/"

  datatype Registration = Registration(
    name: Name,
    deleting: bool,
    specToken: string,
    token: string,
    url: string,
    conds: ConditionMap)

  /** Everything a reconcile learns from outside. */
  datatype Answers = Answers(
    now: int,
    secretFound: bool,
    listed: bool,
    generated: Option<string>,
    serverURL: Option<string>,
    rbacCreated: bool)

  function SetReady(r: Registration, status: Status, reason: Reason, now: int): Registration {
    r.(conds := Set(r.conds, Ready, status, reason, now))
  }

  /** A ready registration with another static token in its spec loses its token and URL. */
  predicate TokenChanged(r: Registration) {
    IsTrue(r.conds, Ready) && r.specToken != "" && r.token != r.specToken
  }

  predicate TakenBy(r: Registration, other: Registration) {
    other.name != r.name && other.token == r.specToken
  }

  datatype TokenStep = TokenSet(token: string) | TokenTaken | TokenMissing

  function ChooseToken(r: Registration, listing: seq<Registration>, a: Answers): TokenStep {
    if r.token != "" then TokenSet(r.token)
    else if r.specToken != "" then
      if !a.listed then TokenMissing
      else if exists other <- listing :: TakenBy(r, other) then TokenTaken
      else TokenSet(r.specToken)
    else if a.generated.None? then TokenMissing
    else TokenSet(a.generated.value)
  }

  function Reconcile(r: Registration, listing: seq<Registration>, a: Answers): Registration {
    if r.deleting || (IsTrue(r.conds, Ready) && !TokenChanged(r) && a.secretFound) then r
    else
      var kept := if TokenChanged(r) then r.(token := "", url := "") else r;
      match ChooseToken(kept, listing, a)
      case TokenTaken => SetReady(kept, CondFalse, DuplicateToken, a.now)
      case TokenMissing => SetReady(kept, CondFalse, MissingTokenOrServerURL, a.now)
      case TokenSet(token) =>
        var named := kept.(token := token);
        if named.url == "" && a.serverURL.None? then SetReady(named, CondFalse, MissingTokenOrServerURL, a.now)
        else
          var located := if named.url == "" then named.(url := a.serverURL.value + URL_PATH + token) else named;
          if a.rbacCreated then SetReady(located, CondTrue, SuccessfullyCreated, a.now)
          else SetReady(located, CondFalse, RbacCreationFailure, a.now)
  }

  /** The registration as one reconcile holds it in memory. */
  class Reconciler {
    var r: Registration

    constructor (stored: Registration)
      ensures r == stored
    {
      r := stored;
    }

    method SetCondition(status: Status, reason: Reason, now: int)
      modifies this
      ensures r == SetReady(old(r), status, reason, now)
    {
      r := r.(conds := Set(r.conds, Ready, status, reason, now));
    }

    method IsReady(a: Answers) returns (ready: bool)
      modifies this
      ensures ready == (IsTrue(old(r.conds), Ready) && !TokenChanged(old(r)) && a.secretFound)
      ensures r == if TokenChanged(old(r)) then old(r).(token := "", url := "") else old(r)
    {
      if IsTrue(r.conds, Ready) {
        if r.specToken != "" && r.token != r.specToken {
          r := r.(token := "", url := "");
          return false;
        }
        return a.secretFound;
      }
      return false;
    }

    method CheckTokenUniqueness(listing: seq<Registration>) returns (taken: bool)
      ensures taken <==> exists other <- listing :: TakenBy(r, other)
    {
      for i := 0 to |listing|
        invariant forall k :: 0 <= k < i ==> !TakenBy(r, listing[k])
      {
        var m := listing[i];
        if m.name == r.name {
          continue;
        }
        if m.token == r.specToken {
          assert m in listing && TakenBy(r, m);
          return true;
        }
      }
      return false;
    }

    method SetRegistrationTokenAndURL(listing: seq<Registration>, a: Answers) returns (failure: Option<Reason>)
      modifies this
      ensures
        match ChooseToken(old(r), listing, a)
        case TokenTaken => failure == Some(DuplicateToken) && r == old(r)
        case TokenMissing => failure == Some(MissingTokenOrServerURL) && r == old(r)
        case TokenSet(token) =>
          var named := old(r).(token := token);
          if named.url == "" && a.serverURL.None? then failure == Some(MissingTokenOrServerURL) && r == named
          else
            && failure.None?
            && r == if named.url == "" then named.(url := a.serverURL.value + URL_PATH + token) else named
    {
      if r.token == "" {
        if r.specToken != "" {
          if !a.listed {
            return Some(MissingTokenOrServerURL);
          }
          var taken := CheckTokenUniqueness(listing);
          if taken {
            return Some(DuplicateToken);
          }
          r := r.(token := r.specToken);
        } else {
          if a.generated.None? {
            return Some(MissingTokenOrServerURL);
          }
          r := r.(token := a.generated.value);
        }
      }
      if r.url == "" {
        if a.serverURL.None? {
          return Some(MissingTokenOrServerURL);
        }
        r := r.(url := a.serverURL.value + URL_PATH + r.token);
      }
      return None;
    }

    method Run(listing: seq<Registration>, a: Answers)
      modifies this
      ensures r == Reconcile(old(r), listing, a)
    {
      if r.deleting {
        return;
      }
      var ready := IsReady(a);
      if ready {
        return;
      }
      var failure := SetRegistrationTokenAndURL(listing, a);
      if failure.Some? {
        SetCondition(CondFalse, failure.value, a.now);
        return;
      }
      if !a.rbacCreated {
        SetCondition(CondFalse, RbacCreationFailure, a.now);
        return;
      }
      SetCondition(CondTrue, SuccessfullyCreated, a.now);
    }
  }

  // ---- Lookup by token ----

  datatype Found = Found(r: Registration) | Ambiguous | Missing | NotReady

  function WithoutNewlines(s: string): string {
    if s == "" then "" else (if s[0] == '\n' || s[0] == '\r' then "" else [s[0]]) + WithoutNewlines(s[1..])
  }

  predicate HasToken(r: Registration, token: string) {
    r.token == token
  }

  /** The answer of a lookup: an error for two matches, none, or one that is not ready. */
  predicate LooksUp(listing: seq<Registration>, token: string, found: Found) {
    && (found.Ambiguous? <==>
          exists i, j :: 0 <= i < j < |listing| && HasToken(listing[i], token) && HasToken(listing[j], token))
    && (found.Missing? <==> forall r <- listing :: !HasToken(r, token))
    && (found.NotReady? ==> exists r <- listing :: HasToken(r, token) && !IsTrue(r.conds, Ready))
    && (found.Found? ==> found.r in listing && HasToken(found.r, token) && IsTrue(found.r.conds, Ready))
  }

  method GetMachineRegistration(listing: seq<Registration>, token: string) returns (found: Found)
    ensures LooksUp(listing, WithoutNewlines(token), found)
  {
    var escaped := WithoutNewlines(token);
    var matched := -1;
    for i := 0 to |listing|
      invariant -1 <= matched < i
      invariant matched >= 0 ==> HasToken(listing[matched], escaped)
      invariant forall k :: 0 <= k < i && k != matched ==> !HasToken(listing[k], escaped)
    {
      if listing[i].token == escaped {
        if matched >= 0 {
          assert HasToken(listing[i], escaped) && listing[i] in listing;
          return Ambiguous;
        }
        matched := i;
      }
    }
    if matched < 0 {
      return Missing;
    }
    assert listing[matched] in listing;
    if !IsTrue(listing[matched].conds, Ready) {
      return NotReady;
    }
    return Found(listing[matched]);
  }

  // ---- URLs ----

  /** Tokens are made of lower-case letters, digits and dashes. */
  predicate UrlSafe(token: string) {
    token != "" && SafeChars(token)
  }

  predicate SafeChars(token: string) {
    forall i :: 0 <= i < |token| ==> 'a' <= token[i] <= 'z' || '0' <= token[i] <= '9' || token[i] == '-'
  }

  function TrimSlashes(path: string): string {
    if path != "" && path[|path| - 1] == '/' then TrimSlashes(path[..|path| - 1]) else path
  }

  function AfterLastSlash(path: string): string {
    if path == "" || path[|path| - 1] == '/' then "" else AfterLastSlash(path[..|path| - 1]) + [path[|path| - 1]]
  }

  /** The last element of a path. */
  function Base(path: string): string {
    if path == "" then "."
    else if TrimSlashes(path) == "" then "/"
    else AfterLastSlash(TrimSlashes(path))
  }

  lemma {:induction false} AfterSlash(prefix: string, element: string)
    requires SafeChars(element)
    ensures AfterLastSlash(prefix + "/" + element) == element
  {
    var path := prefix + "/" + element;
    if element != "" {
      var last := |element| - 1;
      assert path[..|path| - 1] == prefix + "/" + element[..last];
      assert path[|path| - 1] == element[last];
      AfterSlash(prefix, element[..last]);
      assert element == element[..last] + [element[last]];
    }
  }

  lemma BaseOfUrl(prefix: string, token: string)
    requires UrlSafe(token)
    ensures Base(prefix + "/" + token) == token
  {
    var path := prefix + "/" + token;
    assert path[|path| - 1] == token[|token| - 1];
    AfterSlash(prefix, token);
  }

  lemma {:induction false} SafeHasNoNewlines(token: string)
    requires SafeChars(token)
    ensures WithoutNewlines(token) == token
  {
    if token != "" {
      SafeHasNoNewlines(token[1..]);
    }
  }

  // ---- Runs ----

  type World = map<Name, Registration>

  datatype Action =
    | Create(created: Registration)
    | Edit(name: Name, specToken: string, deleting: bool)
    | Remove(name: Name)
    | Reconciled(name: Name, listing: seq<Registration>, answers: Answers)

  predicate ListingOf(listing: seq<Registration>, w: World) {
    && (forall r <- listing :: r.name in w && w[r.name] == r)
    && (forall n <- w :: w[n] in listing)
    && (forall i, j :: 0 <= i < j < |listing| ==> listing[i].name != listing[j].name)
  }

  /** A generated token is URL-safe and unused; a static one passes the pattern of its field. */
  predicate Enabled(w: World, a: Action) {
    match a
    case Create(r) =>
      r.name !in w && r.token == "" && r.url == "" && r.conds == map[] && (r.specToken == "" || UrlSafe(r.specToken))
    case Edit(n, specToken, deleting) => n in w && (specToken == "" || UrlSafe(specToken))
        && (w[n].deleting ==> deleting)
    case Remove(n) => n in w
    case Reconciled(n, listing, answers) =>
      && n in w && ListingOf(listing, w)
      && (answers.generated.Some? ==>
            UrlSafe(answers.generated.value) && forall m <- w :: w[m].token != answers.generated.value)
  }

  function Do(w: World, a: Action): World
    requires Enabled(w, a)
  {
    match a
    case Create(r) => w[r.name := r]
    case Edit(n, specToken, deleting) => w[n := w[n].(specToken := specToken, deleting := deleting)]
    case Remove(n) => w - {n}
    case Reconciled(n, listing, answers) => w[n := Reconcile(w[n], listing, answers)]
  }

  predicate Run(ws: seq<World>, actions: seq<Action>) {
    && |ws| == |actions| + 1 && ws[0] == map[]
    && forall i :: 0 <= i < |actions| ==> Enabled(ws[i], actions[i]) && ws[i + 1] == Do(ws[i], actions[i])
  }

  /** The URL ends in the token, after a slash. */
  predicate EndsInToken(url: string, token: string) {
    |token| < |url| && url == url[..|url| - |token| - 1] + "/" + token
  }

  predicate RegistrationOk(r: Registration) {
    && (r.specToken != "" ==> UrlSafe(r.specToken))
    && (r.token != "" ==> UrlSafe(r.token))
    && (r.url != "" ==> r.token != "" && EndsInToken(r.url, r.token))
    && (IsTrue(r.conds, Ready) ==> r.token != "" && r.url != "")
  }

  predicate Distinct(w: World) {
    forall n, m :: n in w && m in w && n != m && w[n].token == w[m].token ==> w[n].token == ""
  }

  predicate Inv(w: World) {
    Distinct(w) && forall n <- w :: w[n].name == n && RegistrationOk(w[n])
  }

  lemma UrlEnds(server: string, token: string)
    ensures EndsInToken(server + URL_PATH + token, token)
  {
  }

  lemma ReconcileOk(r: Registration, listing: seq<Registration>, a: Answers)
    requires RegistrationOk(r) && (a.generated.Some? ==> UrlSafe(a.generated.value))
    ensures RegistrationOk(Reconcile(r, listing, a)) && Reconcile(r, listing, a).name == r.name
  {
    var kept := if TokenChanged(r) then r.(token := "", url := "") else r;
    var choice := ChooseToken(kept, listing, a);
    if choice.TokenSet? && a.serverURL.Some? {
      UrlEnds(a.serverURL.value, choice.token);
    }
  }

  /** A reconcile keeps the token, drops it, or takes one that no other registration has. */
  lemma ReconcileDistinct(w: World, n: Name, listing: seq<Registration>, a: Answers)
    requires Inv(w) && Enabled(w, Reconciled(n, listing, a))
    ensures
      var token := Reconcile(w[n], listing, a).token;
      token == w[n].token || token == "" || forall m <- w :: m != n ==> w[m].token != token
  {
    var r := w[n];
    var kept := if TokenChanged(r) then r.(token := "", url := "") else r;
    if kept.token == "" && ChooseToken(kept, listing, a).TokenSet? && kept.specToken != "" {
      forall m | m in w && m != n ensures w[m].token != kept.specToken {
        assert w[m] in listing && !TakenBy(kept, w[m]);
      }
    }
  }

  lemma {:induction false} Reachable(ws: seq<World>, actions: seq<Action>, i: nat)
    requires Run(ws, actions) && i < |ws|
    ensures Inv(ws[i])
  {
    if i > 0 {
      Reachable(ws, actions, i - 1);
      var w, a := ws[i - 1], actions[i - 1];
      if a.Reconciled? {
        ReconcileOk(w[a.name], a.listing, a.answers);
        ReconcileDistinct(w, a.name, a.listing, a.answers);
      }
    }
  }

  /** Non-empty status tokens stay pairwise distinct, and a non-empty URL ends in the current token. */
  lemma TokensDistinct(ws: seq<World>, actions: seq<Action>, i: nat, n: Name, m: Name)
    requires Run(ws, actions) && i < |ws| && n in ws[i] && m in ws[i]
    ensures n != m && ws[i][n].token != "" ==> ws[i][n].token != ws[i][m].token
    ensures ws[i][n].url != "" ==> ws[i][n].token != "" && EndsInToken(ws[i][n].url, ws[i][n].token)
  {
    Reachable(ws, actions, i);
  }

  /** Looking up the last path element of a ready registration's URL finds that registration. */
  lemma UrlRoundTrip(ws: seq<World>, actions: seq<Action>, i: nat, n: Name, listing: seq<Registration>, found: Found)
    requires Run(ws, actions) && i < |ws| && n in ws[i] && IsTrue(ws[i][n].conds, Ready)
    requires ListingOf(listing, ws[i]) && LooksUp(listing, WithoutNewlines(Base(ws[i][n].url)), found)
    ensures found == Found(ws[i][n])
  {
    Reachable(ws, actions, i);
    var r := ws[i][n];
    var prefix := r.url[..|r.url| - |r.token| - 1];
    BaseOfUrl(prefix, r.token);
    SafeHasNoNewlines(r.token);
    assert r in listing && HasToken(r, r.token);
    forall k | 0 <= k < |listing| && HasToken(listing[k], r.token) ensures listing[k] == r {
      assert listing[k] in listing;
    }
  }
}

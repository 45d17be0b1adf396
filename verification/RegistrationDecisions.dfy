/** When a machine registration is ready, and which token and URL it then has. */
module RegistrationDecisions {
  import opened Wrappers
  import opened Conditions
  import opened RegistrationToken

  /** The registration is ready, and nobody has set another static token. */
  predicate UpToDate(r: Registration) {
    IsTrue(r.conds, Ready) && (r.specToken == "" || r.specToken == r.token)
  }

  /** A token that stays: a ready registration drops it for another static one, any other keeps it. */
  predicate HoldsToken(r: Registration) {
    r.token != "" && (IsTrue(r.conds, Ready) ==> UpToDate(r))
  }

  predicate HoldsUrl(r: Registration) {
    r.url != "" && (IsTrue(r.conds, Ready) ==> UpToDate(r))
  }

  /** The static token can be taken: the registrations could be listed and no other one has it. */
  predicate StaticFree(r: Registration, listing: seq<Registration>, a: Answers) {
    r.specToken != "" && a.listed && forall other <- listing :: other.name != r.name ==> other.token != r.specToken
  }

  predicate GetsToken(r: Registration, listing: seq<Registration>, a: Answers) {
    HoldsToken(r) || StaticFree(r, listing, a) || (r.specToken == "" && a.generated.Some?)
  }

  /** Nothing is left to do for a ready registration whose service account token is still there. */
  predicate Rests(r: Registration, a: Answers) {
    r.deleting || (UpToDate(r) && a.secretFound)
  }

  lemma RestStays(r: Registration, listing: seq<Registration>, a: Answers)
    requires Rests(r, a)
    ensures Reconcile(r, listing, a) == r
  {
  }

  /** After a reconcile with something to do a registration is ready if and only if token, URL and access are there. */
  lemma ReadyDecides(r: Registration, listing: seq<Registration>, a: Answers)
    requires !Rests(r, a)
    ensures
      IsTrue(Reconcile(r, listing, a).conds, Ready) <==>
        GetsToken(r, listing, a) && (HoldsUrl(r) || a.serverURL.Some?) && a.rbacCreated
  {
  }

  /** A held token is kept; otherwise the static one is taken if free, and a random one if there is no static one. */
  lemma TokenDecides(r: Registration, listing: seq<Registration>, a: Answers)
    requires !Rests(r, a)
    ensures
      Reconcile(r, listing, a).token ==
        if HoldsToken(r) then r.token
        else if r.specToken != "" then (if StaticFree(r, listing, a) then r.specToken else "")
        else if a.generated.Some? then a.generated.value else ""
  {
  }

  /** A held URL is kept; otherwise it is the server's, with the token the registration has just been given. */
  lemma UrlDecides(r: Registration, listing: seq<Registration>, a: Answers)
    requires !Rests(r, a)
    ensures
      var after := Reconcile(r, listing, a);
      after.url ==
        if HoldsUrl(r) then r.url
        else if GetsToken(r, listing, a) && a.serverURL.Some?
        then a.serverURL.value + "/elemental/registration/" + after.token else ""
  {
  }

  /** The lookups of a reconcile succeed and the static token is free. */
  predicate Smooth(r: Registration, listing: seq<Registration>, a: Answers) {
    StaticFree(r, listing, a) && a.serverURL.Some? && a.rbacCreated
  }

  /**
   * A static token is taken up by the second reconcile at the latest, whatever state the registration was in;
   * the first does it unless the registration is not ready and holds another token.
   */
  lemma StaticTaken(r: Registration, first: seq<Registration>, a: Answers, second: seq<Registration>, b: Answers)
    requires !r.deleting && Smooth(r, first, a) && Smooth(r, second, b)
    ensures
      var once := Reconcile(r, first, a);
      var twice := Reconcile(once, second, b);
      && IsTrue(once.conds, Ready)
      && (once.token == r.specToken <==> IsTrue(r.conds, Ready) || r.token == "" || r.token == r.specToken)
      && IsTrue(twice.conds, Ready) && twice.token == r.specToken
  {
    var once := Reconcile(r, first, a);
    assert once.specToken == r.specToken && once.name == r.name;
    if !Rests(r, a) {
      ReadyDecides(r, first, a);
      TokenDecides(r, first, a);
    }
    if !Rests(once, b) {
      ReadyDecides(once, second, b);
      TokenDecides(once, second, b);
    }
  }
}

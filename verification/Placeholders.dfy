/** Substitution of "{name}" placeholders by IP addresses, in the unpredictable order of a map. */
module Placeholders {

  type Addresses = map<string, string>

  function Pattern(name: string): string {
    "{" + name + "}"
  }

  /** Left-to-right replacement of the non-overlapping occurrences of one placeholder. */
  function ReplaceAll(s: string, name: string, ip: string): string {
    if s == "" then ""
    else if Pattern(name) <= s then ip + ReplaceAll(s[|name| + 2..], name, ip)
    else [s[0]] + ReplaceAll(s[1..], name, ip)
  }

  predicate PlaceholderAt(s: string, m: Addresses, name: string) {
    name in m && Pattern(name) <= s
  }

  /** All placeholders replaced at once, in one pass: the meaning every order of the loop has to reach. */
  ghost function Substitute(s: string, m: Addresses): string {
    if s == "" then ""
    else if exists name :: PlaceholderAt(s, m, name) then
      var name :| PlaceholderAt(s, m, name);
      m[name] + Substitute(s[|name| + 2..], m)
    else [s[0]] + Substitute(s[1..], m)
  }

  predicate BraceFree(s: string) {
    forall i :: 0 <= i < |s| ==> s[i] != '{' && s[i] != '}'
  }

  predicate BraceFreeMap(m: Addresses) {
    forall n :: n in m ==> BraceFree(n) && BraceFree(m[n])
  }

  predicate OccursAt(part: string, s: string, i: nat) {
    i <= |s| && part <= s[i..]
  }

  ghost predicate Occurs(part: string, s: string) {
    exists i: nat :: OccursAt(part, s, i)
  }

  /** No address occurs inside the name of another address. */
  ghost predicate Independent(m: Addresses) {
    forall n, k :: n in m && k in m && n != k ==> !Occurs(m[k], n)
  }

  /** No address occurs inside its own name. */
  ghost predicate NotInOwnName(m: Addresses) {
    forall n :: n in m ==> !Occurs(m[n], n)
  }

  // ---- The loop in a given order ----

  predicate OrderOf(order: seq<string>, m: Addresses) {
    && (forall i, j :: 0 <= i < j < |order| ==> order[i] != order[j])
    && (forall n <- order :: n in m) && (forall n <- m :: n in order)
  }

  function ReplaceInOrder(s: string, m: Addresses, order: seq<string>): string
    requires forall n <- order :: n in m
  {
    if order == [] then s
    else
      var last := |order| - 1;
      assert forall n :: n in order[..last] ==> n in order;
      ReplaceAll(ReplaceInOrder(s, m, order[..last]), order[last], m[order[last]])
  }

  // ---- One replacement on top of others ----

  lemma UniquePattern(s: string, n: string, k: string)
    requires Pattern(n) <= s && Pattern(k) <= s && BraceFree(n) && BraceFree(k)
    ensures n == k
  {
    assert n == s[1..|n| + 1] && k == s[1..|k| + 1];
    assert s[|n| + 1] == Pattern(n)[|n| + 1] && s[|k| + 1] == Pattern(k)[|k| + 1];
    assert forall i :: 0 <= i < |n| ==> s[i + 1] == n[i];
    assert forall i :: 0 <= i < |k| ==> s[i + 1] == k[i];
    assert |n| == |k|;
  }

  lemma PatternCons(n: string, c: char, rest: string)
    ensures Pattern(n) <= [c] + rest <==> c == '{' && n + "}" <= rest
  {
    assert Pattern(n) == ['{'] + (n + "}");
    assert ([c] + rest)[1..] == rest;
    if c == '{' && n + "}" <= rest {
      assert [c] + rest == Pattern(n) + rest[|n| + 1..];
    }
    if Pattern(n) <= [c] + rest {
      assert Pattern(n)[0] == ([c] + rest)[0];
      assert n + "}" == Pattern(n)[1..] == ([c] + rest)[1..|n| + 2] == rest[..|n| + 1];
    }
  }

  lemma SubstituteAt(s: string, m: Addresses, name: string)
    requires BraceFreeMap(m) && PlaceholderAt(s, m, name)
    ensures Substitute(s, m) == m[name] + Substitute(s[|name| + 2..], m)
  {
    forall k | PlaceholderAt(s, m, k) ensures k == name {
      UniquePattern(s, name, k);
    }
  }

  predicate NoOpening(s: string) {
    forall i :: 0 <= i < |s| ==> s[i] != '{'
  }

  /** Text without opening braces passes through a replacement untouched. */
  lemma {:induction false} ReplaceSkips(free: string, rest: string, name: string, ip: string)
    requires NoOpening(free)
    ensures ReplaceAll(free + rest, name, ip) == free + ReplaceAll(rest, name, ip)
  {
    if free == "" {
      assert free + rest == rest;
    } else {
      var s := free + rest;
      assert s[0] == free[0] && s[1..] == free[1..] + rest;
      assert Pattern(name)[0] == '{';
      ReplaceSkips(free[1..], rest, name, ip);
    }
  }

  lemma {:induction false} SubstituteSkips(free: string, rest: string, m: Addresses)
    requires BraceFree(free)
    ensures Substitute(free + rest, m) == free + Substitute(rest, m)
  {
    if free == "" {
      assert free + rest == rest;
    } else {
      var s := free + rest;
      assert s[0] == free[0] && s[1..] == free[1..] + rest;
      forall k ensures !PlaceholderAt(s, m, k) {
        assert Pattern(k)[0] == '{';
      }
      SubstituteSkips(free[1..], rest, m);
    }
  }

  /** A substituted address at the head cannot be read as part of a name it does not occur in. */
  lemma HeadBlocks(u: string, m: Addresses, part: string, k: string)
    requires BraceFreeMap(m) && PlaceholderAt(u, m, k) && !Occurs(m[k], part)
    ensures !(part + "}" <= Substitute(u, m))
  {
    SubstituteAt(u, m, k);
    var t := Substitute(u, m);
    assert t[..|m[k]|] == m[k];
    assert !OccursAt(m[k], part, 0) && part[0..] == part;
    if |m[k]| <= |part| {
      assert (part + "}")[..|m[k]|] == part[..|m[k]|];
      assert part[..|m[k]|] != m[k];
    } else {
      assert t[|part|] == m[k][|part|] && (part + "}")[|part|] == '}';
    }
  }

  /**
   * A substitution makes no new end of a name: when no address occurs in `part`, a result that
   * starts with `part` and a closing brace comes from a text that starts so too.
   */
  lemma {:induction false} NoNewTail(u: string, m: Addresses, part: string)
    requires BraceFreeMap(m) && BraceFree(part)
    requires forall k :: k in m ==> !Occurs(m[k], part)
    ensures part + "}" <= Substitute(u, m) ==> part + "}" <= u
    decreases |u|
  {
    if u == "" {
    } else if k :| PlaceholderAt(u, m, k) {
      HeadBlocks(u, m, part, k);
    } else if part == "" {
      assert u[0] == Substitute(u, m)[0];
    } else {
      var tail := part[1..];
      forall k | k in m ensures !Occurs(m[k], tail) {
        TailOccurs(m[k], part);
      }
      NoNewTail(u[1..], m, tail);
      ConsPrefix(part, u[0], Substitute(u[1..], m));
      ConsPrefix(part, u[0], u[1..]);
      assert u == [u[0]] + u[1..];
    }
  }

  lemma TailOccurs(a: string, part: string)
    requires part != "" && !Occurs(a, part)
    ensures !Occurs(a, part[1..])
  {
    forall i: nat ensures !OccursAt(a, part[1..], i) {
      assert !OccursAt(a, part, i + 1);
      assert i < |part| ==> part[1..][i..] == part[i + 1..];
    }
  }

  lemma ConsPrefix(part: string, c: char, rest: string)
    requires part != ""
    ensures part + "}" <= [c] + rest <==> part[0] == c && part[1..] + "}" <= rest
  {
    assert part + "}" == [part[0]] + (part[1..] + "}");
    assert ([c] + rest)[1..] == rest;
    if part + "}" <= [c] + rest {
      assert (part + "}")[0] == ([c] + rest)[0];
      assert part[1..] + "}" == (part + "}")[1..] == ([c] + rest)[1..|part| + 1] == rest[..|part|];
    }
  }

  /** A substitution makes no new placeholder at its head. */
  lemma NoNewPattern(s: string, m: Addresses, n: string)
    requires BraceFreeMap(m) && BraceFree(n) && s != "" && !(Pattern(n) <= s)
    requires forall k :: k in m ==> !Occurs(m[k], n)
    ensures !(Pattern(n) <= [s[0]] + Substitute(s[1..], m))
  {
    NoNewTail(s[1..], m, n);
    PatternCons(n, s[0], Substitute(s[1..], m));
    PatternCons(n, s[0], s[1..]);
    assert s == [s[0]] + s[1..];
  }

  lemma NotPlaceholder(s: string, m: Addresses, n: string)
    requires BraceFreeMap(m) && BraceFree(n) && n !in m && Pattern(n) <= s
    ensures forall k :: !PlaceholderAt(s, m, k)
  {
    forall k ensures !PlaceholderAt(s, m, k) {
      if Pattern(k) <= s && k in m {
        UniquePattern(s, n, k);
      }
    }
  }

  lemma SubstituteElse(s: string, m: Addresses)
    requires s != "" && forall k :: !PlaceholderAt(s, m, k)
    ensures Substitute(s, m) == [s[0]] + Substitute(s[1..], m)
  {
  }

  lemma PatternSplits(s: string, n: string)
    requires Pattern(n) <= s
    ensures s[0] == '{' && s[1..] == n + ("}" + s[|n| + 2..])
  {
  }

  lemma PatternJoins(n: string, rest: string)
    ensures ['{'] + (n + ("}" + rest)) == Pattern(n) + rest
  {
  }

  /** A placeholder that is not substituted stays as it is. */
  lemma PatternStays(s: string, m: Addresses, n: string)
    requires BraceFreeMap(m) && BraceFree(n) && n !in m && Pattern(n) <= s
    ensures Substitute(s, m) == Pattern(n) + Substitute(s[|n| + 2..], m)
  {
    var rest := s[|n| + 2..];
    NotPlaceholder(s, m, n);
    SubstituteElse(s, m);
    PatternSplits(s, n);
    SubstituteSkips(n, "}" + rest, m);
    ClosingSkips(rest, m);
    PatternJoins(n, Substitute(rest, m));
  }

  lemma ReplaceHead(s: string, name: string, ip: string)
    requires Pattern(name) <= s
    ensures ReplaceAll(s, name, ip) == ip + ReplaceAll(s[|name| + 2..], name, ip)
  {
  }

  /** Replacing one more placeholder is substituting it together with the others. */
  lemma {:induction false} ReplaceOneMore(s: string, m: Addresses, n: string, ip: string)
    requires BraceFreeMap(m) && n !in m && BraceFree(n) && BraceFree(ip)
    requires forall k :: k in m ==> !Occurs(m[k], n)
    ensures ReplaceAll(Substitute(s, m), n, ip) == Substitute(s, m[n := ip])
    decreases |s|
  {
    var m' := m[n := ip];
    if s == "" {
    } else if k :| PlaceholderAt(s, m, k) {
      assert PlaceholderAt(s, m', k);
      SubstituteAt(s, m, k);
      SubstituteAt(s, m', k);
      ReplaceSkips(m[k], Substitute(s[|k| + 2..], m), n, ip);
      ReplaceOneMore(s[|k| + 2..], m, n, ip);
    } else if Pattern(n) <= s {
      var rest := s[|n| + 2..];
      assert PlaceholderAt(s, m', n);
      SubstituteAt(s, m', n);
      PatternStays(s, m, n);
      assert Substitute(s, m)[|n| + 2..] == Substitute(rest, m);
      ReplaceHead(Substitute(s, m), n, ip);
      ReplaceOneMore(rest, m, n, ip);
    } else {
      OtherHead(s, m, n, ip);
      ReplaceOneMore(s[1..], m, n, ip);
    }
  }

  lemma OtherHead(s: string, m: Addresses, n: string, ip: string)
    requires BraceFreeMap(m) && BraceFree(n) && s != "" && !(Pattern(n) <= s)
    requires forall k :: k in m ==> !Occurs(m[k], n)
    requires forall k :: !PlaceholderAt(s, m, k)
    ensures ReplaceAll(Substitute(s, m), n, ip) == [s[0]] + ReplaceAll(Substitute(s[1..], m), n, ip)
    ensures Substitute(s, m[n := ip]) == [s[0]] + Substitute(s[1..], m[n := ip])
  {
    NoNewPattern(s, m, n);
    var t := [s[0]] + Substitute(s[1..], m);
    assert Substitute(s, m) == t && t[1..] == Substitute(s[1..], m);
    var m' := m[n := ip];
    forall k ensures !PlaceholderAt(s, m', k) {
      assert !PlaceholderAt(s, m, k);
    }
  }

  lemma ClosingSkips(rest: string, m: Addresses)
    ensures Substitute("}" + rest, m) == "}" + Substitute(rest, m)
  {
  }

  lemma {:induction false} SubstituteNothing(s: string)
    ensures Substitute(s, map[]) == s
  {
    if s != "" {
      SubstituteNothing(s[1..]);
    }
  }

  // ---- The loop and its meaning ----

  function Restrict(m: Addresses, names: set<string>): Addresses {
    map n | n in m && n in names :: m[n]
  }

  function Names(order: seq<string>): set<string> {
    set n | n in order
  }

  /** In any order without repeats, the loop so far has substituted exactly the names it has passed. */
  lemma {:induction false} OrderSubstitutes(s: string, m: Addresses, order: seq<string>)
    requires BraceFreeMap(m) && Independent(m)
    requires (forall n <- order :: n in m) && (forall i, j :: 0 <= i < j < |order| ==> order[i] != order[j])
    ensures ReplaceInOrder(s, m, order) == Substitute(s, Restrict(m, Names(order)))
  {
    if order == [] {
      SubstituteNothing(s);
      assert Restrict(m, Names(order)) == map[];
    } else {
      var last := |order| - 1;
      var front, n := order[..last], order[last];
      assert forall k :: k in front ==> k in order;
      OrderSubstitutes(s, m, front);
      var done := Restrict(m, Names(front));
      assert n in order && n !in front;
      ReplaceOneMore(s, done, n, m[n]);
      assert forall k :: k in order <==> k in front || k == n;
      assert Restrict(m, Names(order)) == done[n := m[n]];
    }
  }

  lemma OrderReaches(s: string, m: Addresses, order: seq<string>)
    requires BraceFreeMap(m) && Independent(m) && OrderOf(order, m)
    ensures ReplaceInOrder(s, m, order) == Substitute(s, m)
  {
    OrderSubstitutes(s, m, order);
    assert Restrict(m, Names(order)) == m;
  }

  /** No placeholder of a known name is left in a text. */
  ghost predicate Complete(s: string, m: Addresses) {
    forall n, i: nat :: n in m ==> !OccursAt(Pattern(n), s, i)
  }

  lemma {:induction false} SubstituteCompletes(s: string, m: Addresses, n: string, i: nat)
    requires BraceFreeMap(m) && n in m && forall k :: k in m ==> !Occurs(m[k], n)
    ensures !OccursAt(Pattern(n), Substitute(s, m), i)
    decreases |s|
  {
    var t := Substitute(s, m);
    if s == "" {
    } else if k :| PlaceholderAt(s, m, k) {
      SubstituteAt(s, m, k);
      if i < |m[k]| {
        assert t[i..][0] == m[k][i];
        assert Pattern(n)[0] == '{';
      } else {
        SubstituteCompletes(s[|k| + 2..], m, n, i - |m[k]|);
        assert i <= |t| ==> t[i..] == Substitute(s[|k| + 2..], m)[i - |m[k]|..];
      }
    } else if i == 0 {
      assert !PlaceholderAt(s, m, n);
      NoNewPattern(s, m, n);
      assert t[0..] == t;
    } else {
      SubstituteCompletes(s[1..], m, n, i - 1);
      assert i <= |t| ==> t[i..] == Substitute(s[1..], m)[i - 1..];
    }
  }

  // ---- Exactly when the loop is confluent and complete ----

  /** The order of the map never matters, on any text. */
  ghost predicate Confluent(m: Addresses) {
    forall s, o, p :: OrderOf(o, m) && OrderOf(p, m) ==> ReplaceInOrder(s, m, o) == ReplaceInOrder(s, m, p)
  }

  /** No text keeps a known placeholder, in any order. */
  ghost predicate AlwaysComplete(m: Addresses) {
    forall s, o :: OrderOf(o, m) ==> Complete(ReplaceInOrder(s, m, o), m)
  }

  /** A placeholder for `k` inside the braces of a longer name. */
  function Nested(x: string, k: string, y: string): string {
    "{" + x + Pattern(k) + y + "}"
  }

  lemma NestedReplace(x: string, k: string, y: string, q: string, ip: string)
    requires BraceFree(x) && BraceFree(k) && BraceFree(y) && BraceFree(q)
    ensures ReplaceAll(Nested(x, k, y), q, ip) == if q == k then "{" + x + ip + y + "}" else Nested(x, k, y)
  {
    var tail := Pattern(k) + (y + "}");
    var s := Nested(x, k, y);
    NestedSplits(x, Pattern(k), y);
    NestedSplits(x, ip, y);
    PatternCons(q, '{', x + tail);
    NotAName(x, tail, q);
    ReplaceElse(s, q, ip);
    ReplaceSkips(x, tail, q, ip);
    TailReplace(k, y + "}", q, ip);
  }

  lemma NestedSplits(x: string, middle: string, y: string)
    ensures "{" + x + middle + y + "}" == ['{'] + (x + (middle + (y + "}")))
  {
  }

  lemma ReplaceElse(s: string, q: string, ip: string)
    requires s != "" && !(Pattern(q) <= s)
    ensures ReplaceAll(s, q, ip) == [s[0]] + ReplaceAll(s[1..], q, ip)
  {
  }

  lemma NotAName(x: string, tail: string, q: string)
    requires BraceFree(x) && BraceFree(q) && tail != "" && tail[0] == '{'
    ensures !(q + "}" <= x + tail)
  {
    var t := x + tail;
    assert t[|x|] == '{';
    if |x| <= |q| {
      assert (q + "}")[|x|] != '{';
    } else {
      assert t[|q|] == x[|q|] && (q + "}")[|q|] == '}';
    }
  }

  lemma TailReplace(k: string, rest: string, q: string, ip: string)
    requires BraceFree(k) && BraceFree(q) && NoOpening(rest)
    ensures ReplaceAll(Pattern(k) + rest, q, ip) == if q == k then ip + rest else Pattern(k) + rest
  {
    var s := Pattern(k) + rest;
    ReplaceNone(rest, q, ip);
    if q == k {
      assert s[|k| + 2..] == rest;
    } else {
      if Pattern(q) <= s {
        UniquePattern(s, q, k);
      }
      assert s[1..] == k + "}" + rest;
      ReplaceNone(k + "}" + rest, q, ip);
      assert s == [s[0]] + s[1..];
    }
  }

  lemma ReplaceNone(free: string, q: string, ip: string)
    requires NoOpening(free)
    ensures ReplaceAll(free, q, ip) == free
  {
    assert free + "" == free;
    ReplaceSkips(free, "", q, ip);
  }

  /** Names other than `k` leave a nested placeholder for `k` alone. */
  lemma {:induction false} OthersLeave(m: Addresses, order: seq<string>, x: string, k: string, y: string)
    requires BraceFreeMap(m) && BraceFree(x) && BraceFree(k) && BraceFree(y)
    requires (forall n <- order :: n in m) && k !in order
    ensures ReplaceInOrder(Nested(x, k, y), m, order) == Nested(x, k, y)
  {
    if order != [] {
      var last := |order| - 1;
      assert order[last] in order && forall n :: n in order[..last] ==> n in order;
      OthersLeave(m, order[..last], x, k, y);
      NestedReplace(x, k, y, order[last], m[order[last]]);
    }
  }

  lemma Enumerate(names: set<string>) returns (order: seq<string>)
    ensures forall i, j :: 0 <= i < j < |order| ==> order[i] != order[j]
    ensures forall n :: n in order <==> n in names
  {
    order := [];
    var rest := names;
    while rest != {}
      invariant rest <= names
      invariant forall i, j :: 0 <= i < j < |order| ==> order[i] != order[j]
      invariant forall n :: n in order <==> n in names - rest
      decreases rest
    {
      var n :| n in rest;
      assert n !in order;
      rest := rest - {n};
      order := order + [n];
    }
  }

  lemma SplitAround(a: string, n: string, i: nat) returns (x: string, y: string)
    requires BraceFree(n) && OccursAt(a, n, i)
    ensures n == x + a + y && BraceFree(x) && BraceFree(y)
  {
    x, y := n[..i], n[i + |a|..];
    assert n[i..][..|a|] == a;
  }

  lemma ReplaceInOrderSnoc(s: string, m: Addresses, order: seq<string>, n: string)
    requires (forall q <- order :: q in m) && n in m
    ensures ReplaceInOrder(s, m, order + [n]) == ReplaceAll(ReplaceInOrder(s, m, order), n, m[n])
  {
  }

  lemma PatternSelf(n: string, ip: string)
    requires BraceFree(n)
    ensures ReplaceAll(Pattern(n), n, ip) == ip
  {
  }

  /** An enumeration of the rest of the map followed by the given last names. */
  lemma OrderEndingIn(m: Addresses, others: seq<string>, last: seq<string>)
    requires forall i, j :: 0 <= i < j < |others| ==> others[i] != others[j]
    requires forall i, j :: 0 <= i < j < |last| ==> last[i] != last[j]
    requires forall q :: q in others <==> q in m && q !in last
    requires forall q <- last :: q in m
    ensures OrderOf(others + last, m)
  {
    var order := others + last;
    forall i, j | 0 <= i < j < |order| ensures order[i] != order[j] {
      assert i < |others| ==> order[i] == others[i] && order[i] in others;
      assert j >= |others| ==> order[j] == last[j - |others|] && order[j] in last;
    }
  }

  /** Resolving the inner placeholder for `k` builds "{n}". */
  lemma NestedTurns(m: Addresses, others: seq<string>, x: string, k: string, y: string)
    requires BraceFreeMap(m) && BraceFree(x) && BraceFree(y) && k in m
    requires (forall q <- others :: q in m) && k !in others
    ensures ReplaceInOrder(Nested(x, k, y), m, others + [k]) == Pattern(x + m[k] + y)
  {
    OthersLeave(m, others, x, k, y);
    ReplaceInOrderSnoc(Nested(x, k, y), m, others, k);
    NestedReplace(x, k, y, k, m[k]);
    assert "{" + x + m[k] + y + "}" == Pattern(x + m[k] + y);
  }

  /** Resolving the placeholder for `n` last replaces the "{n}" that was just built. */
  lemma BuiltThenResolved(m: Addresses, others: seq<string>, x: string, k: string, y: string, n: string)
    requires BraceFreeMap(m) && BraceFree(x) && BraceFree(y) && k in m && n in m && n == x + m[k] + y
    requires (forall q <- others :: q in m) && k !in others
    ensures ReplaceInOrder(Nested(x, k, y), m, others + [k, n]) == m[n]
  {
    NestedTurns(m, others, x, k, y);
    ReplaceInOrderSnoc(Nested(x, k, y), m, others + [k], n);
    assert others + [k, n] == others + [k] + [n];
    PatternSelf(n, m[n]);
  }

  /** When the address of `k` occurs in the name `n`, one order leaves "{n}" and another resolves it. */
  lemma Dependent(m: Addresses, n: string, k: string) returns (s: string, o: seq<string>, p: seq<string>)
    requires BraceFreeMap(m) && n in m && k in m && n != k && Occurs(m[k], n)
    ensures OrderOf(o, m) && OrderOf(p, m)
    ensures ReplaceInOrder(s, m, o) == m[n] && ReplaceInOrder(s, m, p) == Pattern(n)
  {
    var i: nat :| OccursAt(m[k], n, i);
    var x, y := SplitAround(m[k], n, i);
    s := Nested(x, k, y);
    var others := Enumerate(m.Keys - {n, k});
    o, p := others + [k, n], (others + [n]) + [k];
    OrderEndingIn(m, others, [k, n]);
    BuiltThenResolved(m, others, x, k, y, n);
    OrderEndingIn(m, others, [n, k]);
    NestedTurns(m, others + [n], x, k, y);
    assert others + [n, k] == p;
  }

  /** When an address occurs in its own name, its placeholder survives the whole loop. */
  lemma SelfDependent(m: Addresses, n: string) returns (s: string, o: seq<string>)
    requires BraceFreeMap(m) && n in m && Occurs(m[n], n)
    ensures OrderOf(o, m) && ReplaceInOrder(s, m, o) == Pattern(n)
  {
    var i: nat :| OccursAt(m[n], n, i);
    var x, y := SplitAround(m[n], n, i);
    s := Nested(x, n, y);
    var others := Enumerate(m.Keys - {n});
    o := others + [n];
    OrderEndingIn(m, others, [n]);
    NestedTurns(m, others, x, n, y);
  }

  /** The substitution is the same in every order if and only if no address occurs in another's name. */
  lemma ConfluentIff(m: Addresses)
    requires BraceFreeMap(m)
    ensures Confluent(m) <==> Independent(m)
  {
    if Independent(m) {
      forall s, o, p | OrderOf(o, m) && OrderOf(p, m) ensures ReplaceInOrder(s, m, o) == ReplaceInOrder(s, m, p) {
        OrderReaches(s, m, o);
        OrderReaches(s, m, p);
      }
    } else {
      var n, k :| n in m && k in m && n != k && Occurs(m[k], n);
      var s, o, p := Dependent(m, n, k);
      assert Pattern(n)[0] == '{' && (m[n] == "" || m[n][0] != '{');
      assert ReplaceInOrder(s, m, o) != ReplaceInOrder(s, m, p);
    }
  }

  /** No known placeholder ever remains if and only if no address occurs in any name. */
  lemma CompleteIff(m: Addresses)
    requires BraceFreeMap(m)
    ensures AlwaysComplete(m) <==> Independent(m) && NotInOwnName(m)
  {
    if !Independent(m) {
      var n, k :| n in m && k in m && n != k && Occurs(m[k], n);
      var s, o, p := Dependent(m, n, k);
      assert OccursAt(Pattern(n), ReplaceInOrder(s, m, p), 0);
    } else if !NotInOwnName(m) {
      var n :| n in m && Occurs(m[n], n);
      var s, o := SelfDependent(m, n);
      assert OccursAt(Pattern(n), ReplaceInOrder(s, m, o), 0);
    } else {
      forall s, o | OrderOf(o, m) ensures Complete(ReplaceInOrder(s, m, o), m) {
        OrderReaches(s, m, o);
        forall n, i: nat | n in m ensures !OccursAt(Pattern(n), Substitute(s, m), i) {
          SubstituteCompletes(s, m, n, i);
        }
      }
    }
  }

  // ---- The loops of the three configurators ----

  /** The loop over one text, in whatever order the map comes. */
  method SubstituteText(text: string, m: Addresses) returns (result: string, ghost order: seq<string>)
    ensures OrderOf(order, m) && result == ReplaceInOrder(text, m, order)
    ensures BraceFreeMap(m) && Independent(m) ==> result == Substitute(text, m)
    ensures BraceFreeMap(m) && Independent(m) && NotInOwnName(m) ==> Complete(result, m)
  {
    result, order := text, [];
    var rest := m.Keys;
    while rest != {}
      invariant rest <= m.Keys
      invariant forall i, j :: 0 <= i < j < |order| ==> order[i] != order[j]
      invariant (forall n <- order :: n in m && n !in rest) && forall n <- m :: n in rest || n in order
      invariant result == ReplaceInOrder(text, m, order)
      decreases rest
    {
      var name :| name in rest;
      assert name !in order;
      rest := rest - {name};
      ReplaceInOrderSnoc(text, m, order, name);
      result := ReplaceAll(result, name, m[name]);
      order := order + [name];
    }
    if BraceFreeMap(m) && Independent(m) {
      OrderReaches(text, m, order);
      if NotInOwnName(m) {
        CompleteIff(m);
      }
    }
  }

  /** The nested loops over named connections: every connection is rewritten, none added or lost. */
  method SubstituteConnections(connections: map<string, string>, m: Addresses) returns (result: map<string, string>)
    ensures result.Keys == connections.Keys
    ensures BraceFreeMap(m) && Independent(m) ==>
              forall c <- connections :: result[c] == Substitute(connections[c], m)
    ensures BraceFreeMap(m) && Independent(m) && NotInOwnName(m) ==> forall c <- connections :: Complete(result[c], m)
  {
    result := connections;
    var todo := connections.Keys;
    while todo != {}
      invariant todo <= connections.Keys == result.Keys
      invariant forall c <- todo :: result[c] == connections[c]
      invariant BraceFreeMap(m) && Independent(m) ==>
                  forall c <- connections.Keys - todo :: result[c] == Substitute(connections[c], m)
      invariant BraceFreeMap(m) && Independent(m) && NotInOwnName(m) ==>
                  forall c <- connections.Keys - todo :: Complete(result[c], m)
      decreases todo
    {
      var c :| c in todo;
      todo := todo - {c};
      var text, order := SubstituteText(result[c], m);
      result := result[c := text];
    }
  }
}

/** Decoding of "${path/to/value}" templates: the in-place loop refines a tokenizer. */
module Templater {
  import opened Wrappers

  /** A text as the decoder reads it: literal text, then a hole, and so on to the last literal. */
  datatype Template = Last(text: string) | Part(text: string, hole: string, rest: Template)

  // ---- Searching ----

  predicate StartsAt(s: string, part: string, i: nat) {
    i <= |s| && part <= s[i..]
  }

  function IndexFrom(s: string, part: string, from: nat): (i: int)
    requires from <= |s|
    ensures i == -1 || (from <= i && StartsAt(s, part, i))
    ensures forall k: nat :: k >= from && StartsAt(s, part, k) ==> 0 <= i <= k
    decreases |s| - from
  {
    if StartsAt(s, part, from) then from
    else if from == |s| then -1
    else IndexFrom(s, part, from + 1)
  }

  /** The first index at which `part` occurs, or -1. */
  function Index(s: string, part: string): (i: int)
    ensures -1 <= i
    ensures i >= 0 ==> StartsAt(s, part, i)
    ensures forall k: nat :: StartsAt(s, part, k) ==> 0 <= i <= k
  {
    IndexFrom(s, part, 0)
  }

  lemma IndexIs(s: string, part: string, i: nat)
    requires StartsAt(s, part, i) && forall k: nat :: k < i ==> !StartsAt(s, part, k)
    ensures Index(s, part) == i
  {
  }

  lemma CharAt(s: string, c: char, i: nat)
    ensures StartsAt(s, [c], i) <==> i < |s| && s[i] == c
  {
  }

  lemma OpeningAt(s: string, i: nat)
    ensures StartsAt(s, "${", i) <==> i + 1 < |s| && s[i] == '$' && s[i + 1] == '{'
  {
  }

  // ---- The tokenizer ----

  /** Where the first hole opens, and how far from there it ends. */
  function FirstHole(s: string): (hole: Option<(nat, nat)>)
    ensures hole.Some? ==> 2 <= hole.value.1 && hole.value.0 + hole.value.1 < |s|
  {
    var i := Index(s, "${");
    if i == -1 then None
    else
      var j := Index(s[i..], "}");
      if j == -1 then None
      else
        HoleBounds(s, i, j);
        Some((i, j))
  }

  function Parse(s: string): Template
    decreases |s|
  {
    match FirstHole(s)
    case None => Last(s)
    case Some((i, j)) => Part(s[..i], s[i + 2..i + j], Parse(s[i + j + 1..]))
  }

  lemma HoleBounds(s: string, i: nat, j: nat)
    requires StartsAt(s, "${", i) && StartsAt(s[i..], "}", j)
    ensures 2 <= j && i + j < |s| && s[i + j] == '}' && s[..i] + "${" == s[..i + 2]
  {
    OpeningAt(s, i);
    CharAt(s[i..], '}', j);
  }

  function Render(t: Template): string {
    match t
    case Last(text) => text
    case Part(text, hole, rest) => text + "${" + hole + "}" + Render(rest)
  }

  /** Literals open no hole, holes do not contain their end, and the last literal closes none. */
  predicate Canonical(t: Template) {
    match t
    case Last(text) => var i := Index(text, "${"); i == -1 || Index(text[i..], "}") == -1
    case Part(text, hole, rest) => Index(text, "${") == -1 && Index(hole, "}") == -1 && Canonical(rest)
  }

  /** One token of the tokenizer. */
  lemma ParseAt(s: string, i: nat, j: nat)
    requires i <= |s| && i == Index(s, "${") && j == Index(s[i..], "}")
    ensures 2 <= j && i + j < |s| && s[i + j] == '}' && s[..i] + "${" == s[..i + 2]
    ensures Parse(s) == Part(s[..i], s[i + 2..i + j], Parse(s[i + j + 1..]))
  {
    HoleBounds(s, i, j);
    FirstHoleIs(s, i, j);
  }

  lemma FirstHoleIs(s: string, i: nat, j: nat)
    requires i <= |s| && i == Index(s, "${") && j == Index(s[i..], "}")
    ensures FirstHole(s) == Some((i, j))
  {
  }

  lemma {:induction false} ParseRenders(s: string)
    ensures Render(Parse(s)) == s && Canonical(Parse(s))
    decreases |s|
  {
    var i := Index(s, "${");
    if i != -1 {
      var j := Index(s[i..], "}");
      if j != -1 {
        ParseAt(s, i, j);
        ParseRenders(s[i + j + 1..]);
        FirstPart(s, i, j, Parse(s[i + j + 1..]));
      }
    }
  }

  lemma FirstPart(s: string, i: nat, j: nat, rest: Template)
    requires i <= |s| && i == Index(s, "${") && j == Index(s[i..], "}")
    requires 2 <= j && i + j < |s| && s[i + j] == '}' && s[..i] + "${" == s[..i + 2]
    requires Render(rest) == s[i + j + 1..] && Canonical(rest)
    ensures var t := Part(s[..i], s[i + 2..i + j], rest); Canonical(t) && Render(t) == s
  {
    NoEarlierOpening(s, i);
    NoEarlierEnd(s, i, j);
    Pieces(s, i, j);
  }

  lemma Pieces(s: string, i: nat, j: nat)
    requires 2 <= j && i + j < |s| && s[i + j] == '}' && s[..i] + "${" == s[..i + 2]
    ensures s == s[..i] + "${" + s[i + 2..i + j] + "}" + s[i + j + 1..]
  {
  }

  lemma NoEarlierOpening(s: string, i: nat)
    requires i == Index(s, "${")
    ensures Index(s[..i], "${") == -1
  {
    var k := Index(s[..i], "${");
    if k != -1 {
      OpeningAt(s[..i], k);
      OpeningAt(s, k);
    }
  }

  lemma NoEarlierEnd(s: string, i: nat, j: nat)
    requires i <= |s| && j == Index(s[i..], "}") && 2 <= j && i + j < |s|
    ensures Index(s[i + 2..i + j], "}") == -1
  {
    var hole := s[i + 2..i + j];
    var k := Index(hole, "}");
    if k != -1 {
      CharAt(hole, '}', k);
      CharAt(s[i..], '}', k + 2);
    }
  }

  lemma {:induction false} RenderParses(t: Template)
    requires Canonical(t)
    ensures Parse(Render(t)) == t
  {
    if t.Part? {
      ParsePart(t.text, t.hole, Render(t.rest));
      RenderParses(t.rest);
    }
  }

  lemma ParsePart(text: string, hole: string, rest: string)
    requires Index(text, "${") == -1 && Index(hole, "}") == -1
    ensures Parse(text + "${" + hole + "}" + rest) == Part(text, hole, Parse(rest))
  {
    var s := text + "${" + hole + "}" + rest;
    Slices(text, hole, rest);
    OpeningIsFirst(text, "${" + hole + "}" + rest);
    EndIsFirst(hole, rest);
    ParseAt(s, |text|, |hole| + 2);
  }

  lemma Slices(text: string, hole: string, rest: string)
    ensures var s, i := text + "${" + hole + "}" + rest, |text|;
            && s == text + ("${" + hole + "}" + rest)
            && s[i..] == "${" + hole + "}" + rest
            && s[..i] == text && s[i + 2..i + |hole| + 2] == hole && s[i + |hole| + 3..] == rest
  {
  }

  lemma OpeningIsFirst(text: string, after: string)
    requires Index(text, "${") == -1 && "${" <= after
    ensures Index(text + after, "${") == |text|
  {
    var s, i := text + after, |text|;
    assert s[i] == after[0] == '$' && s[i + 1] == after[1] == '{';
    OpeningAt(s, i);
    forall k: nat | k < i ensures !StartsAt(s, "${", k) {
      OpeningAt(s, k);
      OpeningAt(text, k);
      assert !StartsAt(text, "${", k);
    }
    IndexIs(s, "${", i);
  }

  lemma EndIsFirst(hole: string, rest: string)
    requires Index(hole, "}") == -1
    ensures Index("${" + hole + "}" + rest, "}") == |hole| + 2
  {
    var s, j := "${" + hole + "}" + rest, |hole| + 2;
    CharAt(s, '}', j);
    forall k: nat | k < j ensures !StartsAt(s, "}", k) {
      CharAt(s, '}', k);
      if k >= 2 {
        CharAt(hole, '}', k - 2);
        assert s[k] == hole[k - 2] && !StartsAt(hole, "}", k - 2);
      }
    }
    IndexIs(s, "}", j);
  }

  /** A text splits into literals and holes in exactly one way. */
  lemma UniqueSplit(s: string, t: Template)
    ensures Canonical(t) && Render(t) == s <==> t == Parse(s)
  {
    ParseRenders(s);
    if Canonical(t) && Render(t) == s {
      RenderParses(t);
    }
  }

  // ---- Paths ----

  predicate SlashFree(s: string) {
    forall i :: 0 <= i < |s| ==> s[i] != '/'
  }

  function Split(s: string): (parts: seq<string>)
    ensures parts != [] && forall p <- parts :: SlashFree(p)
    decreases |s|
  {
    if s == "" then [""]
    else
      var rest := Split(s[1..]);
      assert SlashFree(rest[0]) && forall p <- rest[1..] :: SlashFree(p);
      if s[0] == '/' then [""] + rest else [[s[0]] + rest[0]] + rest[1..]
  }

  function Join(parts: seq<string>): string {
    if parts == [] then ""
    else if |parts| == 1 then parts[0]
    else parts[0] + "/" + Join(parts[1..])
  }

  lemma {:induction false} JoinSplit(s: string)
    ensures Join(Split(s)) == s
    decreases |s|
  {
    if s != "" {
      JoinSplit(s[1..]);
      var rest := Split(s[1..]);
      assert s == [s[0]] + s[1..];
      assert ([""] + rest)[1..] == rest;
      assert ([[s[0]] + rest[0]] + rest[1..])[1..] == rest[1..];
    }
  }

  lemma JoinHead(head: string, tail: seq<string>)
    requires head != ""
    ensures Join([head] + tail) == [head[0]] + Join([head[1..]] + tail)
  {
  }

  lemma SplitHead(c: char, s: string)
    requires c != '/'
    ensures Split([c] + s) == [[c] + Split(s)[0]] + Split(s)[1..]
  {
  }

  lemma {:induction false} SplitJoin(head: string, tail: seq<string>)
    requires SlashFree(head) && forall p <- tail :: SlashFree(p)
    ensures Split(Join([head] + tail)) == [head] + tail
    decreases |tail|, |head|
  {
    if head != "" {
      SplitJoin(head[1..], tail);
      JoinHead(head, tail);
      SplitHead(head[0], Join([head[1..]] + tail));
      assert [head[0]] + head[1..] == head;
    } else if tail != [] {
      SplitJoin(tail[0], tail[1..]);
      assert [tail[0]] + tail[1..] == tail && ([""] + tail)[1..] == tail;
      assert Join([""] + tail)[1..] == Join(tail);
    }
  }

  /** The path of a hole is the one list of slash-free keys that joins to its text. */
  lemma UniquePath(hole: string, parts: seq<string>)
    ensures parts != [] && (forall p <- parts :: SlashFree(p)) && Join(parts) == hole <==> parts == Split(hole)
  {
    JoinSplit(hole);
    if parts != [] && (forall p <- parts :: SlashFree(p)) && Join(parts) == hole {
      SplitJoin(parts[0], parts[1..]);
      assert [parts[0]] + parts[1..] == parts;
    }
  }

  // ---- Decoding ----

  type Lookup<!V> = (map<string, V>, seq<string>) -> Option<string>

  function Resolve<V>(t: Template, data: map<string, V>, lookup: Lookup<V>): Option<string> {
    match t
    case Last(text) => Some(text)
    case Part(text, hole, rest) =>
      var value := lookup(data, Split(hole));
      var tail := Resolve(rest, data, lookup);
      if value.None? || tail.None? then None else Some(text + value.value + tail.value)
  }

  function Holes(t: Template): seq<string> {
    match t
    case Last(_) => []
    case Part(_, hole, rest) => [hole] + Holes(rest)
  }

  function Literals(t: Template): (r: seq<string>)
    ensures |r| == |Holes(t)| + 1
  {
    match t
    case Last(text) => [text]
    case Part(text, _, rest) => [text] + Literals(rest)
  }

  /** Literals and values taken in turn; no character of a value is ever looked at. */
  function Interleave(literals: seq<string>, values: seq<string>): string
    requires |literals| == |values| + 1
  {
    if values == [] then literals[0] else literals[0] + values[0] + Interleave(literals[1..], values[1..])
  }

  /** Decoding fails exactly when the lookup of some hole does. */
  lemma {:induction false} DecodeFails<V>(t: Template, data: map<string, V>, lookup: Lookup<V>)
    ensures Resolve(t, data, lookup).None? <==> exists h <- Holes(t) :: lookup(data, Split(h)).None?
  {
    if t.Part? {
      DecodeFails(t.rest, data, lookup);
      assert Holes(t) == [t.hole] + Holes(t.rest);
      if lookup(data, Split(t.hole)).None? {
        assert t.hole in Holes(t);
      } else if Resolve(t.rest, data, lookup).None? {
        var h :| h in Holes(t.rest) && lookup(data, Split(h)).None?;
        assert h in Holes(t);
      } else {
        forall h | h in Holes(t) ensures lookup(data, Split(h)).Some? {
          assert h == t.hole || h in Holes(t.rest);
        }
      }
    }
  }

  predicate LookedUp<V>(t: Template, data: map<string, V>, lookup: Lookup<V>, values: seq<string>) {
    |values| == |Holes(t)| && forall k :: 0 <= k < |values| ==> lookup(data, Split(Holes(t)[k])) == Some(values[k])
  }

  /** Otherwise it joins the literals with the values, in the order of the text. */
  lemma {:induction false} DecodeJoins<V>(t: Template, data: map<string, V>, lookup: Lookup<V>, values: seq<string>)
    requires LookedUp(t, data, lookup, values)
    ensures Resolve(t, data, lookup) == Some(Interleave(Literals(t), values))
  {
    if t.Part? {
      var tail := values[1..];
      assert Holes(t)[0] == t.hole && Literals(t)[1..] == Literals(t.rest);
      assert forall k :: 0 <= k < |tail| ==> Holes(t.rest)[k] == Holes(t)[k + 1] && tail[k] == values[k + 1];
      DecodeJoins(t.rest, data, lookup, tail);
    }
  }

  /** A template whose last literal opens no hole and does not end in a dollar sign. */
  predicate Settled(t: Template) {
    match t
    case Last(text) => Index(text, "${") == -1 && (text == "" || text[|text| - 1] != '$')
    case Part(_, _, rest) => Settled(rest)
  }

  function Append(t: Template, u: Template): Template {
    match t
    case Part(text, hole, rest) => Part(text, hole, Append(rest, u))
    case Last(text) =>
      if u.Last? then Last(text + u.text) else Part(text + u.text, u.hole, u.rest)
  }

  lemma OpeningAfter(a: string, b: string)
    requires Index(a, "${") == -1 && (a == "" || a[|a| - 1] != '$')
    ensures Index(a + b, "${") == if Index(b, "${") == -1 then -1 else |a| + Index(b, "${")
  {
    var s, i := a + b, Index(b, "${");
    forall k: nat ensures StartsAt(s, "${", k) <==> k >= |a| && StartsAt(b, "${", k - |a|) {
      OpeningAt(s, k);
      OpeningAt(a, k);
      assert !StartsAt(a, "${", k);
      if k >= |a| {
        OpeningAt(b, k - |a|);
      }
    }
    if i != -1 {
      assert StartsAt(s, "${", |a| + i);
    }
  }

  lemma {:induction false} CanonicalAppend(t: Template, u: Template)
    requires Canonical(t) && Settled(t) && Canonical(u)
    ensures Canonical(Append(t, u))
  {
    if t.Part? {
      CanonicalAppend(t.rest, u);
    } else {
      OpeningAfter(t.text, u.text);
      var i := Index(u.text, "${");
      if u.Last? && i != -1 {
        assert (t.text + u.text)[|t.text| + i..] == u.text[i..];
      }
    }
  }

  lemma {:induction false} RenderAppend(t: Template, u: Template)
    ensures Render(Append(t, u)) == Render(t) + Render(u)
  {
    if t.Part? {
      RenderAppend(t.rest, u);
      var head := t.text + "${" + t.hole + "}";
      assert head + (Render(t.rest) + Render(u)) == (head + Render(t.rest)) + Render(u);
    } else if u.Part? {
      assert t.text + (u.text + "${" + u.hole + "}" + Render(u.rest))
          == (t.text + u.text) + "${" + u.hole + "}" + Render(u.rest);
    }
  }

  lemma {:induction false} ResolveAppend<V>(t: Template, u: Template, data: map<string, V>, lookup: Lookup<V>)
    ensures var a, b := Resolve(t, data, lookup), Resolve(u, data, lookup);
            Resolve(Append(t, u), data, lookup) == if a.None? || b.None? then None else Some(a.value + b.value)
  {
    if t.Part? {
      ResolveAppend(t.rest, u, data, lookup);
      var a, b, v := Resolve(t.rest, data, lookup), Resolve(u, data, lookup), lookup(data, Split(t.hole));
      if a.Some? && b.Some? && v.Some? {
        assert (t.text + v.value + a.value) + b.value == t.text + v.value + (a.value + b.value);
      }
    } else if u.Part? {
      var b, v := Resolve(u.rest, data, lookup), lookup(data, Split(u.hole));
      if b.Some? && v.Some? {
        assert (t.text + u.text) + v.value + b.value == t.text + (u.text + v.value + b.value);
      }
    }
  }

  /** Decoding two texts one after the other is decoding their concatenation, when the first is settled. */
  lemma DecodeConcat<V>(s: string, r: string, data: map<string, V>, lookup: Lookup<V>)
    requires Settled(Parse(s))
    ensures var a, b := Resolve(Parse(s), data, lookup), Resolve(Parse(r), data, lookup);
            Resolve(Parse(s + r), data, lookup) == if a.None? || b.None? then None else Some(a.value + b.value)
  {
    ParseRenders(s);
    ParseRenders(r);
    CanonicalAppend(Parse(s), Parse(r));
    RenderAppend(Parse(s), Parse(r));
    RenderParses(Append(Parse(s), Parse(r)));
    ResolveAppend(Parse(s), Parse(r), data, lookup);
  }

  /** A text that closes nothing closes nothing that an earlier literal has left open. */
  lemma StillOpen(text: string, u: string)
    requires Canonical(Last(text)) && '}' !in u
    ensures Canonical(Last(text + u))
  {
    var s := text + u;
    var i := Index(s, "${");
    if i != -1 {
      var j := Index(s[i..], "}");
      if j != -1 {
        HoleBounds(s, i, j);
        assert s[i + j] == '}' && i + j < |text|;
        OpeningAt(s, i);
        OpeningAt(text, i);
        var k := Index(text, "${");
        assert 0 <= k <= i;
        CharAt(text[k..], '}', i + j - k);
        assert StartsAt(text[k..], "}", i + j - k);
      }
    }
  }

  lemma {:induction false} UnclosedAppends(t: Template, u: string)
    requires Canonical(t) && '}' !in u
    ensures Canonical(Append(t, Last(u)))
  {
    match t
    case Last(text) => StillOpen(text, u);
    case Part(_, _, rest) => UnclosedAppends(rest, u);
  }

  /** Text that closes no hole stays as it is at the end of any text, even where it opens a hole. */
  lemma UnclosedStays<V>(s: string, u: string, data: map<string, V>, lookup: Lookup<V>)
    requires '}' !in u
    ensures var a := Resolve(Parse(s), data, lookup);
            Resolve(Parse(s + u), data, lookup) == if a.None? then None else Some(a.value + u)
  {
    ParseRenders(s);
    UnclosedAppends(Parse(s), u);
    RenderAppend(Parse(s), Last(u));
    RenderParses(Append(Parse(s), Last(u)));
    ResolveAppend(Parse(s), Last(u), data, lookup);
  }

  /** The result of a loop that has written some text and still has a template to read. */
  ghost function Written<V>(written: string, t: Template, data: map<string, V>, lookup: Lookup<V>): Option<string> {
    var tail := Resolve(t, data, lookup);
    if tail.None? then None else Some(written + tail.value)
  }

  lemma WrittenStep<V>(written: string, str: string, i: nat, j: nat, data: map<string, V>, lookup: Lookup<V>)
    requires i == Index(str, "${") && i <= |str| && j == Index(str[i..], "}")
    ensures 2 <= j && i + j < |str|
    ensures var value := lookup(data, Split(str[i + 2..i + j]));
            Written(written, Parse(str), data, lookup) ==
            if value.None? then None
            else Written(written + str[..i] + value.value, Parse(str[i + j + 1..]), data, lookup)
  {
    ParseAt(str, i, j);
    WrittenPart(written, str[..i], str[i + 2..i + j], Parse(str[i + j + 1..]), data, lookup);
  }

  lemma WrittenPart<V>(written: string, text: string, hole: string, rest: Template, data: map<string, V>,
                       lookup: Lookup<V>)
    ensures Written(written, Part(text, hole, rest), data, lookup) ==
            var value := lookup(data, Split(hole));
            if value.None? then None else Written(written + text + value.value, rest, data, lookup)
  {
    var value, tail := lookup(data, Split(hole)), Resolve(rest, data, lookup);
    if value.Some? && tail.Some? {
      assert written + (text + value.value + tail.value) == written + text + value.value + tail.value;
    }
  }

  /** The loop: it shrinks the text from the left and never looks at a value it has written. */
  method ReplaceStringData<V>(data: map<string, V>, name: string, lookup: Lookup<V>) returns (decoded: Option<string>)
    ensures decoded == Resolve(Parse(name), data, lookup)
  {
    var str, result := name, "";
    assert forall v: string :: "" + v == v;
    while true
      invariant Resolve(Parse(name), data, lookup) == Written(result, Parse(str), data, lookup)
      decreases |str|
    {
      var i := Index(str, "${");
      if i == -1 {
        return Some(result + str);
      }
      var j := Index(str[i..], "}");
      if j == -1 {
        return Some(result + str);
      }
      HoleBounds(str, i, j);
      WrittenStep(result, str, i, j, data, lookup);
      var tmplVal := Split(str[i + 2..i + j]);
      var strVal := lookup(data, tmplVal);
      if strVal.None? {
        return None;
      }
      result := result + str[..i] + strVal.value;
      str := str[i + j + 1..];
    }
  }

  class Templater<!V> {
    var data: map<string, V>

    constructor ()
      ensures data == map[]
    {
      data := map[];
    }

    /** New values replace those stored under the same key and keep every other. */
    method Fill(values: map<string, V>)
      modifies this
      ensures data == old(data) + values
    {
      ghost var before := data;
      var todo := values.Keys;
      while todo != {}
        invariant todo <= values.Keys
        invariant data == before + (map k | k in values && k !in todo :: values[k])
        decreases todo
      {
        var k :| k in todo;
        todo := todo - {k};
        data := data[k := values[k]];
      }
      assert (map k | k in values && k !in todo :: values[k]) == values;
    }

    method Decode(str: string, lookup: Lookup<V>) returns (decoded: Option<string>)
      ensures decoded == Resolve(Parse(str), data, lookup)
    {
      decoded := ReplaceStringData(data, str, lookup);
    }
  }
}

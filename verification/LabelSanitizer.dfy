/** Sanitising of label values and host names. */
module LabelSanitizer {

  const MAX_LENGTH := 58

  predicate IsAlnum(c: char) {
    'a' <= c <= 'z' || 'A' <= c <= 'Z' || '0' <= c <= '9'
  }

  predicate KeptInLabel(c: char) {
    IsAlnum(c) || c == '.' || c == '_'
  }

  predicate KeptInHostname(c: char) {
    IsAlnum(c) || c == '.'
  }

  /** A character class that keeps letters and digits and rewrites the dash to itself. */
  ghost predicate Keeps(kept: char -> bool) {
    forall c :: IsAlnum(c) ==> kept(c)
  }

  // ---- The two regular expressions ----

  function Dashed(s: string, kept: char -> bool): (r: string)
    ensures |r| == |s| && forall i :: 0 <= i < |s| ==> r[i] == if kept(s[i]) then s[i] else '-'
  {
    if s == "" then "" else [if kept(s[0]) then s[0] else '-'] + Dashed(s[1..], kept)
  }

  predicate NoDoubleDash(s: string) {
    forall i :: 0 <= i < |s| - 1 ==> s[i] != '-' || s[i + 1] != '-'
  }

  /** Every run of dashes becomes one dash. */
  function Collapse(s: string): (r: string)
    ensures NoDoubleDash(r) && |r| <= |s|
    ensures s != "" ==> r != "" && r[0] == s[0]
    ensures forall c :: c in r <==> c in s
  {
    if |s| <= 1 then s
    else
      var rest := Collapse(s[1..]);
      assert forall c :: c in s <==> c == s[0] || c in s[1..];
      if s[0] == '-' && s[1] == '-' then rest else [s[0]] + rest
  }

  // ---- Trimming ----

  predicate HasAlnum(s: string) {
    exists i :: 0 <= i < |s| && IsAlnum(s[i])
  }

  function TrimStart(s: string): (r: string)
    ensures r == "" || IsAlnum(r[0])
    ensures r == "" <==> !HasAlnum(s)
  {
    if s == "" || IsAlnum(s[0]) then s
    else
      assert forall i :: 0 <= i < |s| - 1 ==> s[1..][i] == s[i + 1];
      TrimStart(s[1..])
  }

  function TrimEnd(s: string): (r: string)
    ensures r == "" || IsAlnum(r[|r| - 1])
    ensures r <= s && (r == "" <==> !HasAlnum(s))
  {
    if s == "" || IsAlnum(s[|s| - 1]) then s
    else
      assert forall i :: 0 <= i < |s| - 1 ==> s[..|s| - 1][i] == s[i];
      TrimEnd(s[..|s| - 1])
  }

  lemma {:induction false} TrimStartSuffix(s: string) returns (k: nat)
    ensures k <= |s| && TrimStart(s) == s[k..] && forall i :: 0 <= i < k ==> !IsAlnum(s[i])
  {
    if s == "" || IsAlnum(s[0]) {
      k := 0;
    } else {
      var j := TrimStartSuffix(s[1..]);
      k := j + 1;
      assert s[1..][j..] == s[k..];
    }
  }

  /** The text before the cut: from the first letter or digit of the collapsed text to the last. */
  function Trimmed(s: string, kept: char -> bool): string {
    TrimEnd(TrimStart(Collapse(Dashed(s, kept))))
  }

  function Sanitize(s: string, kept: char -> bool): string {
    var t := Trimmed(s, kept);
    if |t| > MAX_LENGTH then t[..MAX_LENGTH] else t
  }

  // ---- The character contract ----

  predicate Allowed(s: string, kept: char -> bool) {
    forall i :: 0 <= i < |s| ==> kept(s[i]) || s[i] == '-'
  }

  lemma TrimmedClean(s: string, kept: char -> bool)
    requires Keeps(kept)
    ensures var t := Trimmed(s, kept);
            Allowed(t, kept) && NoDoubleDash(t) && (t != "" ==> IsAlnum(t[0]) && IsAlnum(t[|t| - 1]))
    ensures Trimmed(s, kept) == "" <==> !HasAlnum(s)
  {
    var dashed := Dashed(s, kept);
    var collapsed := Collapse(dashed);
    var k := TrimStartSuffix(collapsed);
    var u, t := TrimStart(collapsed), Trimmed(s, kept);
    assert forall i :: 0 <= i < |t| ==> t[i] == u[i] == collapsed[k + i] && collapsed[k + i] in dashed;
    SameAlnum(s, kept);
  }

  /** Dashing and collapsing lose no letter and no digit altogether, and make none. */
  lemma SameAlnum(s: string, kept: char -> bool)
    requires Keeps(kept)
    ensures HasAlnum(TrimStart(Collapse(Dashed(s, kept)))) <==> HasAlnum(s)
  {
  }

  lemma SanitizeContract(s: string, kept: char -> bool)
    requires Keeps(kept)
    ensures var r := Sanitize(s, kept);
            && |r| <= MAX_LENGTH && Allowed(r, kept) && NoDoubleDash(r)
            && (r != "" ==> IsAlnum(r[0]))
            && (r == "" <==> !HasAlnum(s))
    ensures |Trimmed(s, kept)| <= MAX_LENGTH && HasAlnum(s) ==>
              IsAlnum(Sanitize(s, kept)[|Sanitize(s, kept)| - 1])
  {
    TrimmedClean(s, kept);
    assert Sanitize(s, kept) <= Trimmed(s, kept);
  }

  // ---- What survives ----

  function Letters(s: string): string {
    if s == "" then "" else (if IsAlnum(s[0]) then [s[0]] else "") + Letters(s[1..])
  }

  lemma {:induction false} LettersConcat(a: string, b: string)
    ensures Letters(a + b) == Letters(a) + Letters(b)
  {
    if a == "" {
      assert a + b == b;
    } else {
      LettersConcat(a[1..], b);
      LettersHead(a, b);
    }
  }

  lemma LettersHead(a: string, b: string)
    requires a != ""
    ensures Letters(a + b) == (if IsAlnum(a[0]) then [a[0]] else "") + Letters(a[1..] + b)
  {
    assert (a + b)[1..] == a[1..] + b;
  }

  lemma {:induction false} LettersDashed(s: string, kept: char -> bool)
    requires Keeps(kept)
    ensures Letters(Dashed(s, kept)) == Letters(s)
  {
    if s != "" {
      var c := if kept(s[0]) then s[0] else '-';
      LettersDashed(s[1..], kept);
      assert Dashed(s, kept)[0] == c && Dashed(s, kept)[1..] == Dashed(s[1..], kept);
    }
  }

  lemma {:induction false} LettersCollapse(s: string)
    ensures Letters(Collapse(s)) == Letters(s)
  {
    if |s| > 1 {
      LettersCollapse(s[1..]);
      assert ([s[0]] + Collapse(s[1..]))[1..] == Collapse(s[1..]);
    }
  }

  lemma {:induction false} LettersTrimStart(s: string)
    ensures Letters(TrimStart(s)) == Letters(s)
  {
    if s != "" && !IsAlnum(s[0]) {
      LettersTrimStart(s[1..]);
    }
  }

  lemma {:induction false} LettersTrimEnd(s: string)
    ensures Letters(TrimEnd(s)) == Letters(s)
  {
    if s != "" && !IsAlnum(s[|s| - 1]) {
      var front := s[..|s| - 1];
      LettersTrimEnd(front);
      LettersConcat(front, [s[|s| - 1]]);
      assert s == front + [s[|s| - 1]];
    }
  }

  /** Up to the cut, every letter and digit is kept, in its place among the others. */
  lemma LettersKept(s: string, kept: char -> bool)
    requires Keeps(kept)
    ensures Letters(Trimmed(s, kept)) == Letters(s) && Letters(Sanitize(s, kept)) <= Letters(s)
  {
    var dashed := Dashed(s, kept);
    LettersDashed(s, kept);
    LettersCollapse(dashed);
    LettersTrimStart(Collapse(dashed));
    LettersTrimEnd(TrimStart(Collapse(dashed)));
    var t := Trimmed(s, kept);
    if |t| > MAX_LENGTH {
      LettersConcat(t[..MAX_LENGTH], t[MAX_LENGTH..]);
      assert t == t[..MAX_LENGTH] + t[MAX_LENGTH..];
    }
  }

  // ---- Sanitising twice ----

  lemma CleanStays(t: string, kept: char -> bool)
    requires Allowed(t, kept) && NoDoubleDash(t)
    ensures Collapse(Dashed(t, kept)) == t
  {
  }

  lemma SanitizeClean(t: string, kept: char -> bool)
    requires Allowed(t, kept) && NoDoubleDash(t) && |t| <= MAX_LENGTH && (t != "" ==> IsAlnum(t[0]))
    ensures Sanitize(t, kept) == TrimEnd(t)
  {
    CleanStays(t, kept);
    assert TrimStart(t) == t;
  }

  /** Sanitising again changes nothing if and only if the cut, where there is one, falls behind a letter or digit. */
  lemma IdempotentIff(s: string, kept: char -> bool)
    requires Keeps(kept)
    ensures var t := Trimmed(s, kept);
            Sanitize(Sanitize(s, kept), kept) == Sanitize(s, kept) <==> |t| <= MAX_LENGTH || IsAlnum(t[MAX_LENGTH - 1])
  {
    var t, r := Trimmed(s, kept), Sanitize(s, kept);
    SanitizeContract(s, kept);
    SanitizeClean(r, kept);
    TrimmedClean(s, kept);
    assert r != "" ==> r[|r| - 1] == t[|r| - 1];
  }

  /** Where the cut falls behind a dash: 57 letters, a dash and a letter lose the dash in a second pass. */
  lemma CutBehindDash(kept: char -> bool) returns (s: string)
    requires Keeps(kept)
    ensures |s| == MAX_LENGTH + 1 && IsAlnum(s[MAX_LENGTH]) && s[MAX_LENGTH - 1] == '-'
    ensures Sanitize(Sanitize(s, kept), kept) != Sanitize(s, kept)
  {
    s := seq(MAX_LENGTH - 1, _ => 'a') + "-a";
    CleanStays(s, kept);
    assert Trimmed(s, kept) == s;
    IdempotentIff(s, kept);
  }

  /** A third pass never changes anything. */
  lemma SanitizeSettles(s: string, kept: char -> bool)
    requires Keeps(kept)
    ensures var twice := Sanitize(Sanitize(s, kept), kept); Sanitize(twice, kept) == twice
  {
    var r := Sanitize(s, kept);
    var twice := Sanitize(r, kept);
    SanitizeContract(s, kept);
    SanitizeContract(r, kept);
    SanitizeClean(r, kept);
    SanitizeClean(twice, kept);
  }

  // ---- Texts that need no sanitising ----

  predicate ValidText(s: string, kept: char -> bool) {
    && |s| <= MAX_LENGTH && Allowed(s, kept) && NoDoubleDash(s)
    && (s != "" ==> IsAlnum(s[0]) && IsAlnum(s[|s| - 1]))
  }

  lemma TrimmedShrinks(s: string, kept: char -> bool)
    ensures |Trimmed(s, kept)| <= |s|
  {
    var collapsed := Collapse(Dashed(s, kept));
    var k := TrimStartSuffix(collapsed);
  }

  /** Sanitising leaves alone exactly the texts that are short enough, clean, and framed by letters or digits. */
  lemma UnchangedIff(s: string, kept: char -> bool)
    requires Keeps(kept)
    ensures Sanitize(s, kept) == s <==> ValidText(s, kept)
  {
    TrimmedShrinks(s, kept);
    TrimmedClean(s, kept);
    if ValidText(s, kept) {
      SanitizeClean(s, kept);
    }
  }

  /** Short, without double dashes, and framed by letters or digits. */
  predicate Framed(s: string) {
    |s| <= 58 && NoDoubleDash(s) && (s != "" ==> IsAlnum(s[0]) && IsAlnum(s[|s| - 1]))
  }

  predicate LabelText(s: string) {
    forall c <- s :: IsAlnum(c) || c == '.' || c == '_' || c == '-'
  }

  predicate HostnameText(s: string) {
    forall c <- s :: IsAlnum(c) || c == '.' || c == '-'
  }

  /** A label holds letters, digits, dots, underscores and dashes, at most 58; a valid one is left as it is. */
  lemma LabelCharacters(s: string)
    ensures |Sanitize(s, KeptInLabel)| <= 58 && LabelText(Sanitize(s, KeptInLabel))
    ensures Sanitize(s, KeptInLabel) == s <==> Framed(s) && LabelText(s)
  {
    SanitizeContract(s, KeptInLabel);
    UnchangedIff(s, KeptInLabel);
  }

  /** The same for host names, which hold no underscores. */
  lemma HostnameCharacters(s: string)
    ensures |Sanitize(s, KeptInHostname)| <= 58 && HostnameText(Sanitize(s, KeptInHostname))
    ensures Sanitize(s, KeptInHostname) == s <==> Framed(s) && HostnameText(s)
  {
    SanitizeContract(s, KeptInHostname);
    UnchangedIff(s, KeptInHostname);
  }

  // ---- The code ----

  /** Neither loop ever slices an empty text; the second never comes down to its last character. */
  method SanitizeText(s: string, kept: char -> bool) returns (r: string)
    ensures r == Sanitize(s, kept)
  {
    if s == "" {
      return "";
    }
    var s2 := Collapse(Dashed(s, kept));
    while !IsAlnum(s2[0])
      invariant s2 != "" && TrimStart(s2) == TrimStart(Collapse(Dashed(s, kept)))
      decreases |s2|
    {
      if |s2| == 1 {
        assert TrimStart(s2) == "";
        return "";
      }
      s2 := s2[1..];
    }
    while !IsAlnum(s2[|s2| - 1])
      invariant s2 != "" && IsAlnum(s2[0]) && TrimEnd(s2) == Trimmed(s, kept)
      decreases |s2|
    {
      if |s2| == 1 {
        assert false;  // the first character is kept by the loop above
      }
      s2 := s2[..|s2| - 1];
    }
    if |s2| > MAX_LENGTH {
      s2 := s2[..MAX_LENGTH];
    }
    return s2;
  }

  method SanitizeLabel(s: string) returns (r: string)
    ensures |r| <= MAX_LENGTH && NoDoubleDash(r) && (r == "" <==> !HasAlnum(s))
    ensures forall i :: 0 <= i < |r| ==> KeptInLabel(r[i]) || r[i] == '-'
    ensures r != "" ==> IsAlnum(r[0])
    ensures r == Sanitize(s, KeptInLabel)
  {
    r := SanitizeText(s, KeptInLabel);
    SanitizeContract(s, KeptInLabel);
  }

  method SanitizeHostname(s: string) returns (r: string)
    ensures |r| <= MAX_LENGTH && NoDoubleDash(r) && (r == "" <==> !HasAlnum(s)) && '_' !in r
    ensures forall i :: 0 <= i < |r| ==> KeptInHostname(r[i]) || r[i] == '-'
    ensures r != "" ==> IsAlnum(r[0])
    ensures r == Sanitize(s, KeptInHostname)
  {
    r := SanitizeText(s, KeptInHostname);
    SanitizeContract(s, KeptInHostname);
  }
}

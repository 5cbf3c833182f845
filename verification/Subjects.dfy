/** Subjects and patterns of the messaging layer: tokens separated by dots, `*` for any one token and `>` for
    one or more tokens. */
module Subjects {

  // ----- splitting on dots -----

  /** `s.split(".")`: always at least one token. */
  function Split(s: string): (tokens: seq<string>)
    ensures tokens != []
  {
    if s == "" then [""]
    else
      var rest := Split(s[1..]);
      if s[0] == '.' then [""] + rest else [[s[0]] + rest[0]] + rest[1..]
  }

  function Join(tokens: seq<string>): string
    requires tokens != []
  {
    if |tokens| == 1 then tokens[0] else tokens[0] + "." + Join(tokens[1..])
  }

  lemma {:induction false} JoinOfSplit(s: string)
    ensures Join(Split(s)) == s
  {
    if s != "" {
      JoinOfSplit(s[1..]);
      var rest := Split(s[1..]);
      if s[0] == '.' {
        assert ([""] + rest)[1..] == rest;
        assert s == "." + s[1..];
      } else {
        var tokens := [[s[0]] + rest[0]] + rest[1..];
        assert s == [s[0]] + s[1..];
        if |rest| == 1 {
          assert tokens == [[s[0]] + rest[0]];
        } else {
          assert tokens[1..] == rest[1..];
          assert Join(tokens) == [s[0]] + (rest[0] + "." + Join(rest[1..]));
        }
      }
    }
  }

  /** No token holds a dot, and every character of a token is one of the string. */
  lemma {:induction false} TokensHaveNoDot(s: string)
    ensures forall t :: t in Split(s) ==> '.' !in t
    ensures forall t, c :: t in Split(s) && c in t ==> c in s
  {
    if s != "" {
      TokensHaveNoDot(s[1..]);
      var rest := Split(s[1..]);
      assert forall c :: c in s[1..] ==> c in s;
      assert rest[0] in rest;
      forall t | t in Split(s) ensures '.' !in t && forall c :: c in t ==> c in s {
        if s[0] == '.' {
          assert t == "" || t in rest;
        } else {
          assert t == [s[0]] + rest[0] || t in rest;
        }
      }
    }
  }

  lemma {:induction false} SplitAtDot(token: string, rest: string)
    requires '.' !in token
    ensures Split(token) == [token]
    ensures Split(token + "." + rest) == [token] + Split(rest)
  {
    if token == "" {
      assert token + "." + rest == ['.'] + rest;
    } else {
      SplitAtDot(token[1..], rest);
      assert (token + "." + rest)[1..] == token[1..] + "." + rest;
      assert [token[0]] + token[1..] == token;
    }
  }

  /** Joining and splitting are inverse to each other on tokens without dots. */
  lemma {:induction false} SplitOfJoin(tokens: seq<string>)
    requires tokens != [] && forall t :: t in tokens ==> '.' !in t
    ensures Split(Join(tokens)) == tokens
  {
    if |tokens| == 1 {
      SplitAtDot(tokens[0], "");
    } else {
      SplitOfJoin(tokens[1..]);
      SplitAtDot(tokens[0], Join(tokens[1..]));
    }
  }

  /** Different strings split differently. */
  lemma SplitIsInjective(s: string, t: string)
    requires Split(s) == Split(t)
    ensures s == t
  {
    JoinOfSplit(s);
    JoinOfSplit(t);
  }

  // ----- matching -----

  /** The token semantics: position by position up to the first `>`, which stands for one or more further tokens;
      without a `>` the lengths agree. */
  ghost predicate Matches(pat: seq<string>, sub: seq<string>) {
    exists k: nat :: MatchesUpTo(pat, sub, k)
  }

  ghost predicate MatchesUpTo(pat: seq<string>, sub: seq<string>, k: nat) {
    && k <= |pat| && k <= |sub|
    && (forall i :: 0 <= i < k ==> pat[i] != ">" && (pat[i] == "*" || pat[i] == sub[i]))
    && if k == |pat| then k == |sub| else pat[k] == ">" && k < |sub|
  }

  /** The same, token by token. */
  lemma MatchesStep(pat: seq<string>, sub: seq<string>)
    ensures Matches(pat, sub) <==>
            if pat == [] then sub == []
            else if pat[0] == ">" then sub != []
            else sub != [] && (pat[0] == "*" || pat[0] == sub[0]) && Matches(pat[1..], sub[1..])
  {
    if pat == [] || sub == [] || pat[0] == ">" {
      assert MatchesUpTo(pat, sub, 0) <==> if pat == [] then sub == [] else pat[0] == ">" && sub != [];
    } else {
      forall k: nat ensures MatchesUpTo(pat, sub, k) <==>
                            k > 0 && (pat[0] == "*" || pat[0] == sub[0]) && MatchesUpTo(pat[1..], sub[1..], k - 1) {
        if k > 0 { MatchesShifted(pat, sub, k); }
      }
      if Matches(pat[1..], sub[1..]) {
        var k: nat :| MatchesUpTo(pat[1..], sub[1..], k);
        assert k + 1 - 1 == k;
        assert (pat[0] == "*" || pat[0] == sub[0]) <==> MatchesUpTo(pat, sub, k + 1);
      }
    }
  }

  lemma MatchesShifted(pat: seq<string>, sub: seq<string>, k: nat)
    requires pat != [] && sub != [] && pat[0] != ">" && k > 0
    ensures MatchesUpTo(pat, sub, k) <==> (pat[0] == "*" || pat[0] == sub[0]) && MatchesUpTo(pat[1..], sub[1..], k - 1)
  {
    if k <= |pat| && k <= |sub| {
      forall i | 0 < i < k ensures pat[i] == pat[1..][i - 1] && sub[i] == sub[1..][i - 1] {
      }
      if MatchesUpTo(pat[1..], sub[1..], k - 1) {
        forall i | 0 < i < k ensures pat[i] != ">" && (pat[i] == "*" || pat[i] == sub[i]) {
          assert pat[1..][i - 1] != ">";
        }
      }
    }
  }

  method MatchesPattern(pattern: string, subject: string) returns (r: bool)
    ensures r <==> Matches(Split(pattern), Split(subject))
  {
    var sub, pat := Split(subject), Split(pattern);
    var i, j := 0, 0;
    while i < |sub| && j < |pat|
      invariant 0 <= i == j <= |sub| && j <= |pat|
      invariant forall k :: 0 <= k < i ==> pat[k] != ">" && (pat[k] == "*" || pat[k] == sub[k])
    {
      if pat[j] == ">" {
        assert MatchesUpTo(pat, sub, j);
        return true;
      }
      if pat[j] != "*" && pat[j] != sub[i] {
        assert forall k: nat :: MatchesUpTo(pat, sub, k) ==> k <= j;
        return false;
      }
      i := i + 1;
      j := j + 1;
    }
    r := i == |sub| && j == |pat|;
    assert r ==> MatchesUpTo(pat, sub, j);
  }

  // ----- validity -----

  /** The code points that the regular expression class \s matches. */
  predicate IsSpace(c: char) {
    || '\t' <= c <= '\r' || c == ' ' || c == '\U{A0}' || c == '\U{1680}' || '\U{2000}' <= c <= '\U{200A}'
    || c == '\U{2028}' || c == '\U{2029}' || c == '\U{202F}' || c == '\U{205F}' || c == '\U{3000}' || c == '\U{FEFF}'
  }

  /** One by one. */
  lemma SpacesAre(c: char)
    ensures IsSpace(c) <==>
            c in "\t\n\U{B}\U{C}\r \U{A0}\U{1680}\U{2000}\U{2001}\U{2002}\U{2003}\U{2004}\U{2005}\U{2006}\U{2007}"
                 + "\U{2008}\U{2009}\U{200A}\U{2028}\U{2029}\U{202F}\U{205F}\U{3000}\U{FEFF}"
  {
    var spaces := "\t\n\U{B}\U{C}\r \U{A0}\U{1680}\U{2000}\U{2001}\U{2002}\U{2003}\U{2004}\U{2005}\U{2006}\U{2007}"
                  + "\U{2008}\U{2009}\U{200A}\U{2028}\U{2029}\U{202F}\U{205F}\U{3000}\U{FEFF}";
    assert |spaces| == 25;
    if IsSpace(c) {
      assert c in spaces;
    }
  }

  predicate HasSpace(s: string) {
    exists c :: c in s && IsSpace(c)
  }

  /** A valid subject has no empty token, no white space, and `>` at most as its last token. */
  ghost predicate Valid(tokens: seq<string>) {
    && (forall i :: 0 <= i < |tokens| ==> tokens[i] != "" && !HasSpace(tokens[i]))
    && (forall i :: 0 <= i < |tokens| - 1 ==> tokens[i] != ">")
  }

  method IsValidSubject(subject: string) returns (r: bool)
    ensures r <==> Valid(Split(subject))
  {
    var tokens := Split(subject);
    EmptyEnds(subject);
    if |subject| == 0 { return false; }
    if subject[0] == '.' || subject[|subject| - 1] == '.' { return false; }
    if exists i :: 0 <= i < |tokens| && |tokens[i]| == 0 { return false; }
    TokensHaveNoDot(subject);
    var i := 0;
    while i < |tokens|
      invariant 0 <= i <= |tokens|
      invariant forall k :: 0 <= k < i ==> !HasSpace(tokens[k]) && (k < |tokens| - 1 ==> tokens[k] != ">")
    {
      var tok := tokens[i];
      if tok == ">" && i != |tokens| - 1 { return false; }
      if tok != "*" && tok != ">" {
        assert tok in tokens;
        if '.' in tok || HasSpace(tok) { return false; }
      }
      if HasSpace(tok) { return false; }
      i := i + 1;
    }
    return true;
  }

  /** A string that is empty, or begins or ends with a dot, has an empty token. */
  lemma {:induction false} EmptyEnds(s: string)
    ensures s == "" || s[0] == '.' ==> Split(s)[0] == ""
    ensures s == "" || s[|s| - 1] == '.' ==> Split(s)[|Split(s)| - 1] == ""
  {
    if s != "" {
      EmptyEnds(s[1..]);
      if |s| > 1 { assert s[1..][|s| - 2] == s[|s| - 1]; }
    }
  }

  method IsValidSubjectWithoutWildcards(subject: string) returns (r: bool)
    ensures r <==> Plain(subject)
  {
    var valid := IsValidSubject(subject);
    return valid && '*' !in subject && !(|subject| > 0 && subject[|subject| - 1] == '>');
  }

  ghost predicate Plain(s: string) {
    Valid(Split(s)) && '*' !in s && !(|s| > 0 && s[|s| - 1] == '>')
  }

  /** The last token ends where the string ends. */
  lemma {:induction false} LastTokenEndsString(s: string)
    ensures var last := Split(s)[|Split(s)| - 1];
            last != "" ==> s != "" && last[|last| - 1] == s[|s| - 1]
  {
    if s != "" { LastTokenEndsString(s[1..]); }
  }

  /** Every character but the dots is in some token. */
  lemma {:induction false} CharactersAreInTokens(s: string, c: char)
    requires c in s && c != '.'
    ensures exists t :: t in Split(s) && c in t
  {
    var rest := Split(s[1..]);
    if s[0] == c {
      assert [s[0]] + rest[0] in Split(s);
    } else {
      assert c in s[1..];
      CharactersAreInTokens(s[1..], c);
      var t :| t in rest && c in t;
      assert t == rest[0] || t in rest[1..];
      if s[0] == '.' {
        assert t in Split(s);
      } else {
        assert c in [s[0]] + rest[0] <==> c == s[0] || c in rest[0];
        assert (if t == rest[0] then [s[0]] + rest[0] else t) in Split(s);
      }
    }
  }

  /** Subjects without wildcards in terms of their tokens. */
  lemma PlainIff(s: string)
    ensures var tokens := Split(s);
            Plain(s) <==> && (forall t :: t in tokens ==> t != "" && t != ">" && !HasSpace(t) && '*' !in t)
                          && tokens[|tokens| - 1] != "" && LastOf(tokens[|tokens| - 1]) != '>'
  {
    var tokens := Split(s);
    var last := tokens[|tokens| - 1];
    LastTokenEndsString(s);
    if Plain(s) {
      assert last != "" && LastOf(last) != '>';
      forall t | t in tokens ensures t != "" && t != ">" && !HasSpace(t) && '*' !in t {
        TokensHaveNoDot(s);
        var i :| 0 <= i < |tokens| && tokens[i] == t;
        assert i == |tokens| - 1 ==> t == last;
      }
    } else if '*' in s {
      CharactersAreInTokens(s, '*');
    } else if last != "" && LastOf(last) != '>' {
      var i :| 0 <= i < |tokens| && (tokens[i] == "" || HasSpace(tokens[i]) || tokens[i] == ">");
      assert tokens[i] in tokens;
    }
  }

  function LastOf(s: string): char
    requires s != ""
  {
    s[|s| - 1]
  }

  // ----- validity in terms of characters -----

  /** Every dot has a character after it that is no dot. */
  predicate DotsAreFollowed(s: string) {
    forall i :: 0 <= i < |s| && s[i] == '.' ==> i + 1 < |s| && s[i + 1] != '.'
  }

  lemma DotsAreFollowedStep(s: string)
    requires s != ""
    ensures DotsAreFollowed(s) <==> (s[0] == '.' ==> |s| > 1 && s[1] != '.') && DotsAreFollowed(s[1..])
  {
    if DotsAreFollowed(s[1..]) {
      forall i | 1 <= i < |s| && s[i] == '.' ensures i + 1 < |s| && s[i + 1] != '.' {
        assert s[1..][i - 1] == '.';
      }
    }
  }

  predicate NoneEmpty(tokens: seq<string>, from: nat) {
    forall i :: from <= i < |tokens| ==> tokens[i] != ""
  }

  lemma NoneEmptyStep(first: string, rest: seq<string>)
    requires rest != []
    ensures NoneEmpty([first] + rest, 1) <==> rest[0] != "" && NoneEmpty(rest, 1)
    ensures NoneEmpty([first] + rest[1..], 1) <==> NoneEmpty(rest, 1)
  {
    var all, other := [first] + rest, [first] + rest[1..];
    assert forall i :: 0 <= i < |rest| ==> rest[i] == all[i + 1];
    assert forall i :: 1 <= i < |rest| ==> rest[i] == other[i];
    if NoneEmpty(rest, 1) && rest[0] != "" {
      assert forall i :: 1 <= i < |all| ==> all[i] == rest[i - 1];
    }
  }

  lemma {:induction false} LaterTokens(s: string)
    ensures NoneEmpty(Split(s), 1) <==> DotsAreFollowed(s)
  {
    if s != "" {
      LaterTokens(s[1..]);
      DotsAreFollowedStep(s);
      var rest := Split(s[1..]);
      NoneEmptyStep(if s[0] == '.' then "" else [s[0]] + rest[0], rest);
      assert rest[0] == "" <==> |s| == 1 || s[1] == '.';
      hide DotsAreFollowed, NoneEmpty;
    }
  }

  /** A `>` between the start or a dot, and a dot. */
  predicate TailAtChar(s: string, k: nat) {
    k + 1 < |s| && s[k] == '>' && s[k + 1] == '.' && (k > 0 ==> s[k - 1] == '.')
  }

  /** A token `>`, not the last, at an index from `from` on. */
  predicate TailAtToken(tokens: seq<string>, i: nat) {
    i + 1 < |tokens| && tokens[i] == ">"
  }

  lemma FirstTail(s: string)
    ensures TailAtToken(Split(s), 0) <==> TailAtChar(s, 0)
  {
    if |s| > 1 {
      assert s[1..][0] == s[1];
      if s[0] != '.' {
        var first := [s[0]] + Split(s[1..])[0];
        assert Split(s)[0] == first && first[0] == s[0];
        assert Split(s[1..])[0] == "" ==> first == [s[0]];
      }
      assert s[1] == '.' ==> |Split(s[1..])| > 1;
    }
  }

  lemma {:induction false} TailToChar(s: string, i: nat) returns (k: nat)
    requires TailAtToken(Split(s), i)
    ensures TailAtChar(s, k) && (i > 0 ==> k > 0)
  {
    if i == 0 {
      FirstTail(s);
      k := 0;
    } else {
      k := TailToChar(s[1..], if s[0] == '.' then i - 1 else i);
      k := k + 1;
    }
  }

  lemma {:induction false} TailToToken(s: string, k: nat) returns (i: nat)
    requires TailAtChar(s, k)
    ensures TailAtToken(Split(s), i) && (k > 0 ==> i > 0)
  {
    if k == 0 {
      FirstTail(s);
      i := 0;
    } else {
      assert TailAtChar(s[1..], k - 1);
      i := TailToToken(s[1..], k - 1);
      if s[0] == '.' { i := i + 1; }
    }
  }

  /** A subject is valid if and only if it is not empty, does not begin with a dot, has after every dot a character that is
      no dot, holds no white space, and no `>` that is a token other than the last. */
  lemma ValidIff(s: string)
    ensures Valid(Split(s)) <==>
            s != "" && s[0] != '.' && DotsAreFollowed(s) && !HasSpace(s) && forall k: nat :: !TailAtChar(s, k)
  {
    var tokens := Split(s);
    LaterTokens(s);
    TokensHaveNoDot(s);
    assert tokens[0] != "" <==> s != "" && s[0] != '.';
    assert (forall i :: 0 <= i < |tokens| ==> tokens[i] != "") <==> tokens[0] != "" && NoneEmpty(tokens, 1);
    SpaceIsInToken(s);
    assert (exists t :: t in tokens && HasSpace(t)) <==> exists i :: 0 <= i < |tokens| && HasSpace(tokens[i]);
    if k: nat :| TailAtChar(s, k) {
      var i := TailToToken(s, k);
      assert tokens[i] == ">";
    }
    if i :| 0 <= i < |tokens| - 1 && tokens[i] == ">" {
      assert TailAtToken(tokens, i);
      var k := TailToChar(s, i);
    }
  }

  lemma SpaceIsInToken(s: string)
    ensures HasSpace(s) <==> exists t :: t in Split(s) && HasSpace(t)
  {
    TokensHaveNoDot(s);
    if HasSpace(s) {
      var c :| c in s && IsSpace(c);
      CharactersAreInTokens(s, c);
    }
  }

  predicate Wild(token: string) {
    token == "*" || token == ">"
  }

  lemma PlainHasNoWildcardToken(s: string)
    requires Plain(s)
    ensures forall i :: 0 <= i < |Split(s)| ==> !Wild(Split(s)[i])
  {
    var tokens := Split(s);
    TokensHaveNoDot(s);
    LastTokenEndsString(s);
    forall i | 0 <= i < |tokens| ensures !Wild(tokens[i]) {
      var token := tokens[i];
      assert token in tokens && (token != "" ==> token[0] in token);
    }
  }

  /** As a pattern, a subject without wildcard tokens matches itself and nothing else. */
  lemma LiteralMatchesOnlyItself(s: string, t: string)
    requires forall i :: 0 <= i < |Split(s)| ==> !Wild(Split(s)[i])
    ensures Matches(Split(s), Split(t)) <==> s == t
  {
    var pat, sub := Split(s), Split(t);
    if Matches(pat, sub) {
      var k: nat :| MatchesUpTo(pat, sub, k);
      assert pat == sub;
      SplitIsInjective(s, t);
    }
    if s == t {
      assert MatchesUpTo(pat, sub, |pat|);
    }
  }

  /** In particular a valid subject without wildcards. */
  lemma PlainMatchesOnlyItself(s: string, t: string)
    requires Plain(s)
    ensures Matches(Split(s), Split(t)) <==> s == t
  {
    PlainHasNoWildcardToken(s);
    LiteralMatchesOnlyItself(s, t);
  }

  /** The index of the first `>`, or the length. */
  function TailAt(pat: seq<string>): (g: nat)
    ensures g <= |pat| && (forall i :: 0 <= i < g ==> pat[i] != ">") && (g < |pat| ==> pat[g] == ">")
  {
    if pat == [] || pat[0] == ">" then 0 else 1 + TailAt(pat[1..])
  }

  /** A pattern with a wildcard token matches more than itself. */
  lemma WildMatchesAnother(s: string, i: nat) returns (t: string)
    requires i < |Split(s)| && Wild(Split(s)[i])
    ensures Matches(Split(s), Split(t)) && t != s
  {
    var pat := Split(s);
    var sub := pat[i := "a"];
    t := Join(sub);
    TokensHaveNoDot(s);
    forall x | x in sub ensures '.' !in x {
      assert x == "a" || x in pat;
    }
    SplitOfJoin(sub);
    assert pat[i] != sub[i];
    assert MatchesUpTo(pat, sub, TailAt(pat));
  }

  ghost predicate MatchesOnlyItself(pattern: string) {
    forall t :: Selects(pattern, t) <==> pattern == t
  }

  ghost predicate Selects(pattern: string, subject: string) {
    Matches(Split(pattern), Split(subject))
  }

  ghost predicate HasWildcard(pattern: string) {
    exists i :: 0 <= i < |Split(pattern)| && Wild(Split(pattern)[i])
  }

  /** A pattern matches itself and nothing else exactly when none of its tokens is a wildcard. */
  lemma LiteralIff(s: string)
    ensures MatchesOnlyItself(s) <==> !HasWildcard(s)
  {
    if HasWildcard(s) {
      var i :| 0 <= i < |Split(s)| && Wild(Split(s)[i]);
      var t := WildMatchesAnother(s, i);
      assert Selects(s, t) && s != t;
    } else {
      forall t ensures Selects(s, t) <==> s == t { LiteralMatchesOnlyItself(s, t); }
    }
  }
}

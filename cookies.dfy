/** `getCSRFToken` of static/js/index.js: find the anti-forgery token in the
    `document.cookie` header. The header is split on `;`, each entry is
    trimmed, and the first entry that starts with `csrftoken=` yields its
    percent-decoded remainder. */
module Cookies {
  import opened Values

  /** The cookie the page looks for. */
  const TokenName: string := "csrftoken"

  /** `name + "="`, the exact prefix an entry must start with. */
  const TokenKey: string := TokenName + "="

  /** What a call of `getCSRFToken` ends with: the decoded token, `null`, or
      the `URIError` that `decodeURIComponent` throws on a malformed escape
      (the function does not catch it, so it reaches its caller). */
  datatype TokenLookup = Found(token: string) | NotFound | Malformed

  // ---------------------------------------------------------------------
  // String.prototype.split with a one-character separator

  /** `s.split(sep)`: the maximal separator-free pieces of `s`, in order; an
      empty string gives one empty piece, and a trailing separator gives a
      trailing empty piece. */
  function Split(s: string, sep: char): (parts: seq<string>)
    ensures |parts| >= 1
  {
    if |s| == 0 then [""]
    else
      var rest := Split(s[1..], sep);
      if s[0] == sep then [""] + rest
      else [[s[0]] + rest[0]] + rest[1..]
  }

  /** `parts.join(sep)`, the inverse of `Split`. */
  function Join(parts: seq<string>, sep: char): string
    requires |parts| >= 1
  {
    if |parts| == 1 then parts[0] else parts[0] + [sep] + Join(parts[1..], sep)
  }

  /** No piece contains the separator. */
  lemma {:induction false} SplitSeparatorFree(s: string, sep: char)
    ensures forall i :: 0 <= i < |Split(s, sep)| ==> sep !in Split(s, sep)[i]
  {
    if |s| > 0 {
      SplitSeparatorFree(s[1..], sep);
    }
  }

  /** Joining the pieces back gives the header that was split. */
  lemma {:induction false} JoinSplit(s: string, sep: char)
    ensures Join(Split(s, sep), sep) == s
  {
    if |s| > 0 {
      var rest := Split(s[1..], sep);
      JoinSplit(s[1..], sep);
      if s[0] == sep {
        assert ([""] + rest)[1..] == rest;
      } else {
        var parts := [[s[0]] + rest[0]] + rest[1..];
        if |rest| == 1 {
          assert parts == [[s[0]] + rest[0]];
        } else {
          assert parts[1..] == rest[1..];
          assert Join(rest, sep) == rest[0] + [sep] + Join(rest[1..], sep);
        }
      }
    }
  }

  /** A separator-free string is one piece. */
  lemma {:induction false} SplitSingle(p: string, sep: char)
    requires sep !in p
    ensures Split(p, sep) == [p]
  {
    if |p| > 0 {
      SplitSingle(p[1..], sep);
      assert [p[0]] + p[1..] == p;
    }
  }

  /** A separator after a separator-free first piece ends that piece. */
  lemma {:induction false} SplitCons(p: string, sep: char, t: string)
    requires sep !in p
    ensures Split(p + [sep] + t, sep) == [p] + Split(t, sep)
  {
    if |p| == 0 {
      assert p + [sep] + t == [sep] + t;
      assert ([sep] + t)[1..] == t;
    } else {
      var s := p + [sep] + t;
      assert s[0] == p[0] && s[1..] == p[1..] + [sep] + t;
      SplitCons(p[1..], sep, t);
      assert [p[0]] + p[1..] == p;
    }
  }

  /** Splitting a join of separator-free pieces gives the pieces back. */
  lemma {:induction false} SplitJoin(parts: seq<string>, sep: char)
    requires |parts| >= 1
    requires forall i :: 0 <= i < |parts| ==> sep !in parts[i]
    ensures Split(Join(parts, sep), sep) == parts
  {
    if |parts| == 1 {
      SplitSingle(parts[0], sep);
    } else {
      SplitJoin(parts[1..], sep);
      SplitCons(parts[0], sep, Join(parts[1..], sep));
      assert [parts[0]] + parts[1..] == parts;
    }
  }

  // ---------------------------------------------------------------------
  // String.prototype.trim

  /** The characters `trim` removes: the ECMAScript WhiteSpace code points
      (tab, vertical tab, form feed, the byte order mark and the Unicode
      space separators) and LineTerminator code points (line feed, carriage
      return, line and paragraph separators). */
  const JsWhitespace: set<char> := {
    '\t', '\U{B}', '\U{C}', '\U{FEFF}',
    ' ', '\U{A0}', '\U{1680}', '\U{2000}', '\U{2001}', '\U{2002}', '\U{2003}', '\U{2004}',
    '\U{2005}', '\U{2006}', '\U{2007}', '\U{2008}', '\U{2009}', '\U{200A}', '\U{202F}',
    '\U{205F}', '\U{3000}',
    '\n', '\r', '\U{2028}', '\U{2029}'
  }

  predicate IsJsWhitespace(c: char) {
    c in JsWhitespace
  }

  /** Every character of `t` is whitespace. */
  predicate AllWhitespace(t: string) {
    forall i :: 0 <= i < |t| ==> IsJsWhitespace(t[i])
  }

  /** `s` without its leading whitespace. */
  function TrimStart(s: string): (r: string)
    ensures |r| <= |s|
  {
    if |s| > 0 && IsJsWhitespace(s[0]) then TrimStart(s[1..]) else s
  }

  /** `s` without its trailing whitespace. */
  function TrimEnd(s: string): (r: string)
    ensures |r| <= |s|
  {
    if |s| > 0 && IsJsWhitespace(s[|s| - 1]) then TrimEnd(s[..|s| - 1]) else s
  }

  /** `s.trim()`. */
  function Trim(s: string): string {
    TrimEnd(TrimStart(s))
  }

  /** `TrimStart` drops a whitespace-only head and stops at the first other
      character. */
  lemma {:induction false} TrimStartSpec(s: string)
    ensures var r := TrimStart(s);
      r == s[|s| - |r|..] && AllWhitespace(s[..|s| - |r|]) && (r == [] || !IsJsWhitespace(r[0]))
  {
    if |s| > 0 && IsJsWhitespace(s[0]) {
      var r := TrimStart(s[1..]);
      TrimStartSpec(s[1..]);
      assert s[..|s| - |r|] == [s[0]] + s[1..][..|s| - 1 - |r|];
    }
  }

  /** `TrimEnd` drops a whitespace-only tail and stops at the last other
      character. */
  lemma {:induction false} TrimEndSpec(s: string)
    ensures var r := TrimEnd(s);
      r == s[..|r|] && AllWhitespace(s[|r|..]) && (r == [] || !IsJsWhitespace(r[|r| - 1]))
  {
    if |s| > 0 && IsJsWhitespace(s[|s| - 1]) {
      var r := TrimEnd(s[..|s| - 1]);
      TrimEndSpec(s[..|s| - 1]);
      assert s[|r|..] == s[..|s| - 1][|r|..] + [s[|s| - 1]];
    }
  }

  /** `r` is `s` with a whitespace-only head of length `k` and a
      whitespace-only tail removed, and has no surrounding whitespace itself. */
  predicate IsTrimOf(s: string, r: string, k: int) {
    0 <= k <= |s| - |r| && r == s[k..k + |r|] &&
    AllWhitespace(s[..k]) && AllWhitespace(s[k + |r|..]) &&
    (r == [] || (!IsJsWhitespace(r[0]) && !IsJsWhitespace(r[|r| - 1])))
  }

  /** `Trim` removes exactly the surrounding whitespace. */
  lemma TrimSpec(s: string)
    ensures IsTrimOf(s, Trim(s), |s| - |TrimStart(s)|)
  {
    var head := TrimStart(s);
    var r := TrimEnd(head);
    TrimStartSpec(s);
    TrimEndSpec(head);
    var k := |s| - |head|;
    assert r == s[k..k + |r|];
    assert s[k + |r|..] == head[|r|..];
    assert r != [] ==> r[0] == head[0];
  }

  /** `IsTrimOf` pins the trimmed string down: there is only one, so it is
      an independent definition of what `Trim` computes. */
  lemma {:induction false} TrimUnique(s: string, r1: string, k1: int, r2: string, k2: int)
    requires IsTrimOf(s, r1, k1) && IsTrimOf(s, r2, k2)
    ensures r1 == r2
  {
    // a whitespace position of one trim cannot be an end of the other
    forall k, r, j | IsTrimOf(s, r, k) && 0 <= j < |s| && (j < k || k + |r| <= j)
      ensures IsJsWhitespace(s[j])
    {
      if j < k { assert s[..k][j] == s[j]; } else { assert s[k + |r|..][j - k - |r|] == s[j]; }
    }
    if r1 != [] && r2 != [] {
      assert s[k1] == r1[0] && s[k2] == r2[0];
      assert k1 == k2;
      var e1, e2 := k1 + |r1| - 1, k2 + |r2| - 1;
      assert s[e1] == r1[|r1| - 1] && s[e2] == r2[|r2| - 1];
      assert e1 == e2;
    }
  }

  /** A string that has no surrounding whitespace is left as it is. */
  lemma TrimUnpadded(s: string)
    requires s == [] || (!IsJsWhitespace(s[0]) && !IsJsWhitespace(s[|s| - 1]))
    ensures Trim(s) == s
  {
    assert IsTrimOf(s, s, 0);
    TrimSpec(s);
    TrimUnique(s, s, 0, Trim(s), |s| - |TrimStart(s)|);
  }

  // ---------------------------------------------------------------------
  // String.prototype.substring and the prefix test

  function Min(a: nat, b: nat): nat { if a <= b then a else b }

  /** `s.substring(start, end)` for non-negative arguments: both are clamped
      to the length, and the smaller one is taken as the start. */
  function Substring(s: string, start: nat, end: nat): (r: string)
    ensures |r| <= |s|
    ensures start <= end <= |s| ==> r == s[start..end]
    ensures end <= start <= |s| ==> r == s[end..start]
    ensures start <= |s| < end ==> r == s[start..]
    ensures end <= |s| < start ==> r == s[end..]
    ensures |s| < start && |s| < end ==> r == []
  {
    var a := Min(start, |s|);
    var b := Min(end, |s|);
    if a <= b then s[a..b] else s[b..a]
  }

  /** The test of the loop: `cookie.substring(0, name.length + 1) === name + "="`. */
  predicate EntryMatches(entry: string) {
    Substring(entry, 0, |TokenName| + 1) == TokenKey
  }

  /** `cookie.substring(name.length + 1)`: what follows `csrftoken=`. */
  function TokenText(entry: string): string {
    Substring(entry, |TokenName| + 1, |entry|)
  }

  /** The test is exactly "starts with `csrftoken=`", and what it passes on
      is exactly the text after that prefix. */
  lemma {:induction false} MatchIsExactPrefix(entry: string)
    ensures EntryMatches(entry) <==> TokenKey <= entry
    ensures EntryMatches(entry) ==> entry == TokenKey + TokenText(entry)
  {
    assert |TokenKey| == |TokenName| + 1 == 10;
    if |entry| < 10 {
      assert |Substring(entry, 0, 10)| < 10;
    } else {
      assert Substring(entry, 0, 10) == entry[..10];
      assert TokenText(entry) == entry[10..];
      assert entry == entry[..10] + entry[10..];
    }
  }

  /** Cookies whose names merely contain `csrftoken` are never taken. */
  lemma NearMissesRejected(rest: string)
    ensures !EntryMatches("csrftokenx=" + rest)
    ensures !EntryMatches("xcsrftoken=" + rest)
    ensures !EntryMatches("csrftoken" + rest) || (|rest| > 0 && rest[0] == '=')
  {
    MatchIsExactPrefix("csrftokenx=" + rest);
    MatchIsExactPrefix("xcsrftoken=" + rest);
    MatchIsExactPrefix("csrftoken" + rest);
    assert ("csrftokenx=" + rest)[9] == 'x' && TokenKey[9] == '=';
    assert ("xcsrftoken=" + rest)[0] == 'x' && TokenKey[0] == 'c';
    if EntryMatches("csrftoken" + rest) {
      assert ("csrftoken" + rest)[9] == TokenKey[9];
    }
  }

  // ---------------------------------------------------------------------
  // getCSRFToken

  /** The entry at index `k` is the first one that matches once trimmed. */
  predicate IsFirstMatch(entries: seq<string>, k: int) {
    0 <= k < |entries| && EntryMatches(Trim(entries[k])) &&
    forall j :: 0 <= j < k ==> !EntryMatches(Trim(entries[j]))
  }

  /** The value of `decodeURIComponent(text)` (`None` when it throws). */
  function Decoded(d: Option<string>): (r: TokenLookup)
    ensures r != NotFound
  {
    if d.Some? then Found(d.value) else Malformed
  }

  /** `getCSRFToken()`, reading `document.cookie` as `cookie`, with
      `decodeURIComponent` as `decode`. */
  method GetCSRFToken(cookie: string, decode: string -> Option<string>) returns (r: TokenLookup)
    ensures r == NotFound ==>
      cookie == "" || forall j :: 0 <= j < |Split(cookie, ';')| ==> !EntryMatches(Trim(Split(cookie, ';')[j]))
    ensures r != NotFound ==> cookie != ""
    ensures r != NotFound ==> exists k :: (IsFirstMatch(Split(cookie, ';'), k) &&
      r == Decoded(decode(TokenText(Trim(Split(cookie, ';')[k])))))
  {
    r := NotFound;
    if cookie != "" {
      var cookies := Split(cookie, ';');
      var i := 0;
      while i < |cookies|
        invariant 0 <= i <= |cookies|
        invariant forall j :: 0 <= j < i ==> !EntryMatches(Trim(cookies[j]))
        invariant r == NotFound
      {
        var entry := Trim(cookies[i]);
        if Substring(entry, 0, |TokenName| + 1) == TokenName + "=" {
          r := Decoded(decode(Substring(entry, |TokenName| + 1, |entry|)));
          assert IsFirstMatch(cookies, i);
          break;
        }
        i := i + 1;
      }
    }
  }

  /** Only the first matching entry is read: a header with two tokens yields
      the first one, whatever follows it. */
  method FirstTokenWins(first: string, later: string, decode: string -> Option<string>)
    returns (r: TokenLookup)
    requires ';' !in first && ';' !in later
    requires first == [] || !IsJsWhitespace(first[|first| - 1])
    requires decode(first).Some?
    ensures r == Found(decode(first).value)
  {
    var e0, e1 := TokenKey + first, " " + TokenKey + later;
    assert ';' !in TokenKey;
    var entries := [e0, e1];
    SplitJoin(entries, ';');
    TrimUnpadded(e0);
    MatchIsExactPrefix(e0);
    assert TokenKey <= e0;
    assert TokenText(e0) == first by {
      assert e0[10..] == first;
    }
    assert IsFirstMatch(entries, 0);
    r := GetCSRFToken(Join(entries, ';'), decode);
  }
}

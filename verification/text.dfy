/** String operations shared by the Python services and the browser script:
    splitting and joining on a separator, whitespace stripping (Python's and
    JavaScript's whitespace sets differ), ASCII lower-casing, substring search,
    character replacement and decimal rendering of naturals. */
module Text {

  /** Python's `sep.join(parts)` and JavaScript's `parts.join(sep)`. */
  function Join(parts: seq<string>, sep: string): string
  {
    if |parts| == 0 then ""
    else if |parts| == 1 then parts[0]
    else parts[0] + sep + Join(parts[1..], sep)
  }

  /** Left-to-right, non-overlapping split of `s` on `sep`; `cur` is the piece
      collected so far. Python's `str.split(sep)` and JavaScript's
      `String.prototype.split(sep)` agree for a non-empty string separator. */
  function SplitFrom(s: string, sep: string, cur: string): (r: seq<string>)
    requires |sep| > 0
    ensures |r| >= 1
    decreases |s|
  {
    if |s| == 0 then [cur]
    else if sep <= s then [cur] + SplitFrom(s[|sep|..], sep, "")
    else SplitFrom(s[1..], sep, cur + [s[0]])
  }

  function Split(s: string, sep: string): (r: seq<string>)
    requires |sep| > 0
    ensures |r| >= 1
  {
    SplitFrom(s, sep, "")
  }

  /** Joining the pieces of a split with the same separator gives back the input. */
  lemma {:induction false} SplitFromJoin(s: string, sep: string, cur: string)
    requires |sep| > 0
    ensures Join(SplitFrom(s, sep, cur), sep) == cur + s
    decreases |s|
  {
    if |s| == 0 {
    } else if sep <= s {
      var rest := SplitFrom(s[|sep|..], sep, "");
      SplitFromJoin(s[|sep|..], sep, "");
      assert SplitFrom(s, sep, cur) == [cur] + rest;
      assert ([cur] + rest)[1..] == rest;
      assert s == sep + s[|sep|..];
    } else {
      SplitFromJoin(s[1..], sep, cur + [s[0]]);
      assert cur + [s[0]] + s[1..] == cur + s;
    }
  }

  lemma SplitJoin(s: string, sep: string)
    requires |sep| > 0
    ensures Join(Split(s, sep), sep) == s
  {
    SplitFromJoin(s, sep, "");
  }

  /** A stretch that does not contain the separator's first character is copied
      into the current piece unchanged. */
  lemma {:induction false} SplitFromSkip(p: string, t: string, sep: string, cur: string)
    requires |sep| > 0
    requires sep[0] !in p
    ensures SplitFrom(p + t, sep, cur) == SplitFrom(t, sep, cur + p)
    decreases |p|
  {
    if |p| > 0 {
      var s := p + t;
      assert s[0] == p[0];
      assert !(sep <= s);
      assert s[1..] == p[1..] + t;
      SplitFromSkip(p[1..], t, sep, cur + [p[0]]);
      assert cur + [p[0]] + p[1..] == cur + p;
    } else {
      assert p + t == t;
      assert cur + p == cur;
    }
  }

  /** Splitting a join gives back the parts, provided no part contains the
      separator's first character. */
  lemma {:induction false} JoinSplit(parts: seq<string>, sep: string)
    requires |sep| > 0 && |parts| >= 1
    requires forall k :: 0 <= k < |parts| ==> sep[0] !in parts[k]
    ensures Split(Join(parts, sep), sep) == parts
    decreases |parts|
  {
    if |parts| == 1 {
      SplitFromSkip(parts[0], "", sep, "");
      assert parts[0] + "" == parts[0];
      assert "" + parts[0] == parts[0];
    } else {
      var tail := Join(parts[1..], sep);
      SplitFromSkip(parts[0], sep + tail, sep, "");
      assert "" + parts[0] == parts[0];
      assert (sep + tail)[|sep|..] == tail;
      JoinSplit(parts[1..], sep);
      assert parts[0] + sep + tail == parts[0] + (sep + tail);
      assert parts == [parts[0]] + parts[1..];
    }
  }

  /** A join of several parts is the first part, the separator, and the rest. */
  lemma JoinHead(parts: seq<string>, sep: string)
    requires |parts| > 1
    ensures Join(parts, sep) == parts[0] + (sep + Join(parts[1..], sep))
  {
  }

  lemma {:induction false} JoinSnoc(parts: seq<string>, last: string, sep: string)
    requires |parts| > 0
    ensures Join(parts + [last], sep) == Join(parts, sep) + sep + last
    decreases |parts|
  {
    if |parts| == 1 {
      assert parts + [last] == [parts[0], last];
      assert [parts[0], last][1..] == [last];
    } else {
      assert (parts + [last])[0] == parts[0];
      assert (parts + [last])[1..] == parts[1..] + [last];
      JoinSnoc(parts[1..], last, sep);
    }
  }

  /** A join of non-empty parts is empty only when there are no parts. */
  lemma {:induction false} JoinEmpty(parts: seq<string>, sep: string)
    requires forall k :: 0 <= k < |parts| ==> parts[k] != ""
    ensures Join(parts, sep) == "" <==> |parts| == 0
    decreases |parts|
  {
    if |parts| > 1 {
      JoinEmpty(parts[1..], sep);
    }
  }

  /** Index of the first occurrence of `c` in `s`. */
  function IndexOf(s: string, c: char): (i: nat)
    requires c in s
    ensures i < |s| && s[i] == c && c !in s[..i]
  {
    if s[0] == c then 0 else IndexOf(s[1..], c) + 1
  }

  /** Splitting on a one-character separator cuts at its first occurrence. */
  lemma SplitAtFirst(s: string, c: char)
    requires c in s
    ensures Split(s, [c]) == [s[..IndexOf(s, c)]] + Split(s[IndexOf(s, c) + 1..], [c])
  {
    var i := IndexOf(s, c);
    SplitFromSkip(s[..i], s[i..], [c], "");
    assert s[..i] + s[i..] == s;
    assert "" + s[..i] == s[..i];
    assert [c] <= s[i..];
    assert s[i..][1..] == s[i + 1..];
  }

  /** Splitting a string without the separator character yields it whole. */
  lemma SplitNone(s: string, c: char)
    requires c !in s
    ensures Split(s, [c]) == [s]
  {
    SplitFromSkip(s, "", [c], "");
    assert s + "" == s;
    assert "" + s == s;
  }

  /** `c in s` for a set of characters, over a whole string. */
  predicate AllIn(s: string, ws: set<char>)
  {
    forall i :: 0 <= i < |s| ==> s[i] in ws
  }

  /** Drops leading characters that belong to `ws`. */
  function TrimLeft(s: string, ws: set<char>): (r: string)
    ensures |r| <= |s| && r == s[|s| - |r|..]
    ensures r == "" || r[0] !in ws
    ensures AllIn(s[..|s| - |r|], ws)
  {
    if |s| > 0 && s[0] in ws then
      var r := TrimLeft(s[1..], ws);
      assert s[1..][|s| - 1 - |r|..] == s[|s| - |r|..];
      assert s[..|s| - |r|] == [s[0]] + s[1..][..|s| - 1 - |r|];
      AllInAppend([s[0]], s[1..][..|s| - 1 - |r|], ws);
      r
    else
      assert s[..0] == [];
      s
  }

  /** Drops trailing characters that belong to `ws`. */
  function TrimRight(s: string, ws: set<char>): (r: string)
    ensures |r| <= |s| && r == s[..|r|]
    ensures r == "" || r[|r| - 1] !in ws
    ensures AllIn(s[|r|..], ws)
  {
    if |s| > 0 && s[|s| - 1] in ws then
      var r := TrimRight(s[..|s| - 1], ws);
      assert s[..|s| - 1][..|r|] == s[..|r|];
      assert s[|r|..] == s[..|s| - 1][|r|..] + [s[|s| - 1]];
      AllInAppend(s[..|s| - 1][|r|..], [s[|s| - 1]], ws);
      r
    else
      assert s[|s|..] == [];
      s
  }

  /** Drops leading and trailing characters that belong to `ws`; the result is
      empty exactly when every character of `s` is in `ws`. */
  function Trim(s: string, ws: set<char>): (r: string)
    ensures |r| <= |s|
    ensures r == "" || (r[0] !in ws && r[|r| - 1] !in ws)
    ensures r == "" <==> AllIn(s, ws)
    ensures exists i, j :: 0 <= i <= j <= |s| && r == s[i..j] && AllIn(s[..i], ws) && AllIn(s[j..], ws)
  {
    var l := TrimLeft(s, ws);
    var r := TrimRight(l, ws);
    TrimParts(s, l, r, ws);
    r
  }

  /** Trimming the left end and then the right end keeps one slice of the
      input with only trimmed characters outside it. */
  lemma TrimParts(s: string, l: string, r: string, ws: set<char>)
    requires |l| <= |s| && l == s[|s| - |l|..] && AllIn(s[..|s| - |l|], ws)
    requires |r| <= |l| && r == l[..|r|] && AllIn(l[|r|..], ws)
    ensures exists i, j :: 0 <= i <= j <= |s| && r == s[i..j] && AllIn(s[..i], ws) && AllIn(s[j..], ws)
    ensures r == "" ==> AllIn(s, ws)
    ensures r != "" ==> r[0] == l[0] && r[0] == s[|s| - |l|]
  {
    var i := |s| - |l|;
    assert s[i + |r|..] == l[|r|..];
    assert r == s[i..i + |r|];
    if r == "" {
      AllInAppend(s[..i], l, ws);
      assert s == s[..i] + l;
    }
  }

  lemma AllInAppend(a: string, b: string, ws: set<char>)
    requires AllIn(a, ws) && AllIn(b, ws)
    ensures AllIn(a + b, ws)
  {
    forall i | 0 <= i < |a + b| ensures (a + b)[i] in ws {
      if i >= |a| { assert (a + b)[i] == b[i - |a|]; }
    }
  }

  /** A string that neither starts nor ends with a character of `ws` is its own
      trim; in particular trimming twice is trimming once. */
  lemma TrimFixed(s: string, ws: set<char>)
    requires s == "" || (s[0] !in ws && s[|s| - 1] !in ws)
    ensures Trim(s, ws) == s
    ensures Trim(Trim(s, ws), ws) == Trim(s, ws)
  {
  }

  /** Trimming twice is trimming once. */
  lemma TrimTwice(s: string, ws: set<char>)
    ensures Trim(Trim(s, ws), ws) == Trim(s, ws)
  {
    TrimFixed(Trim(s, ws), ws);
  }

  /** Characters Python's `str.strip()` removes (`str.isspace()`). */
  const PySpace: set<char> :=
    {' ', '\t', '\n', '\r', '\U{000B}', '\U{000C}', '\U{001C}', '\U{001D}', '\U{001E}', '\U{001F}',
     '\U{0085}', '\U{00A0}', '\U{1680}', '\U{2000}', '\U{2001}', '\U{2002}', '\U{2003}', '\U{2004}',
     '\U{2005}', '\U{2006}', '\U{2007}', '\U{2008}', '\U{2009}', '\U{200A}', '\U{2028}', '\U{2029}',
     '\U{202F}', '\U{205F}', '\U{3000}'}

  /** Characters JavaScript's `String.prototype.trim()` removes. */
  const JsSpace: set<char> :=
    {' ', '\t', '\n', '\r', '\U{000B}', '\U{000C}',
     '\U{00A0}', '\U{1680}', '\U{2000}', '\U{2001}', '\U{2002}', '\U{2003}', '\U{2004}',
     '\U{2005}', '\U{2006}', '\U{2007}', '\U{2008}', '\U{2009}', '\U{200A}', '\U{2028}', '\U{2029}',
     '\U{202F}', '\U{205F}', '\U{3000}', '\U{FEFF}'}

  function PyStrip(s: string): string { Trim(s, PySpace) }

  function JsTrim(s: string): string { Trim(s, JsSpace) }

  /** ASCII lower-casing of one character. */
  function LowerChar(c: char): char
  {
    if 'A' <= c <= 'Z' then (c as int + 32) as char else c
  }

  function Lower(s: string): (r: string)
    ensures |r| == |s|
    ensures forall i :: 0 <= i < |s| ==> r[i] == LowerChar(s[i])
  {
    if |s| == 0 then "" else [LowerChar(s[0])] + Lower(s[1..])
  }

  /** Python's `t in s` and JavaScript's `s.includes(t)` on strings. */
  predicate Contains(s: string, t: string)
    decreases |s|
  {
    t <= s || (|s| > 0 && Contains(s[1..], t))
  }

  /** Lower-casing works character by character. */
  lemma LowerAppend(a: string, b: string)
    ensures Lower(a + b) == Lower(a) + Lower(b)
  {
    assert forall i :: 0 <= i < |a + b| ==> Lower(a + b)[i] == (Lower(a) + Lower(b))[i];
  }

  /** A string occurs inside any string that has it in the middle. */
  lemma {:induction false} ContainsMiddle(a: string, t: string, b: string)
    ensures Contains(a + t + b, t)
    decreases |a|
  {
    if |a| == 0 {
      assert a + t + b == t + b;
    } else {
      assert (a + t + b)[1..] == a[1..] + t + b;
      ContainsMiddle(a[1..], t, b);
    }
  }

  /** Every occurrence of `c` in `s` replaced by `rep`. */
  function ReplaceAll(s: string, c: char, rep: string): (r: string)
    ensures c !in rep ==> c !in r
  {
    if |s| == 0 then ""
    else (if s[0] == c then rep else [s[0]]) + ReplaceAll(s[1..], c, rep)
  }

  function DigitChar(d: nat): char
    requires d < 10
  {
    "0123456789"[d]
  }

  /** Python's `str(n)` for a natural number. */
  function NatToString(n: nat): (r: string)
    ensures |r| >= 1
    ensures n >= 10 ==> |r| >= 2
    decreases n
  {
    if n < 10 then [DigitChar(n)] else NatToString(n / 10) + [DigitChar(n % 10)]
  }

  /** Distinct numbers print differently. */
  lemma {:induction false} NatToStringInjective(a: nat, b: nat)
    requires NatToString(a) == NatToString(b)
    ensures a == b
    decreases a
  {
    var sa, sb := NatToString(a), NatToString(b);
    if a < 10 && b < 10 {
      assert "0123456789"[a] == sa[0] == sb[0] == "0123456789"[b];
    } else if a >= 10 && b >= 10 {
      assert sa[|sa| - 1] == sb[|sb| - 1];
      assert "0123456789"[a % 10] == "0123456789"[b % 10];
      assert sa[..|sa| - 1] == NatToString(a / 10);
      assert sb[..|sb| - 1] == NatToString(b / 10);
      NatToStringInjective(a / 10, b / 10);
    }
  }

  /** Replacement works piece by piece. */
  lemma {:induction false} ReplaceAllAppend(a: string, b: string, c: char, rep: string)
    ensures ReplaceAll(a + b, c, rep) == ReplaceAll(a, c, rep) + ReplaceAll(b, c, rep)
    decreases |a|
  {
    if |a| == 0 {
      assert a + b == b;
    } else {
      assert (a + b)[0] == a[0];
      assert (a + b)[1..] == a[1..] + b;
      ReplaceAllAppend(a[1..], b, c, rep);
    }
  }

  /** Replacing the one-character separator of a join gives the join with the
      replacement as separator, when no part contains that character. */
  lemma {:induction false} ReplaceAllJoin(parts: seq<string>, c: char, rep: string)
    requires forall k :: 0 <= k < |parts| ==> c !in parts[k]
    ensures ReplaceAll(Join(parts, [c]), c, rep) == Join(parts, rep)
    decreases |parts|
  {
    if |parts| == 1 {
      ReplaceAllAbsent(parts[0], c, rep);
    } else if |parts| > 1 {
      var tail := Join(parts[1..], [c]);
      assert Join(parts, [c]) == parts[0] + ([c] + tail);
      ReplaceAllAppend(parts[0], [c] + tail, c, rep);
      ReplaceAllAppend([c], tail, c, rep);
      assert ReplaceAll([c], c, rep) == rep + ReplaceAll([], c, rep);
      ReplaceAllAbsent(parts[0], c, rep);
      ReplaceAllJoin(parts[1..], c, rep);
    }
  }

  /** Replacing a character that does not occur changes nothing. */
  lemma {:induction false} ReplaceAllAbsent(s: string, c: char, rep: string)
    requires c !in s
    ensures ReplaceAll(s, c, rep) == s
  {
    if |s| > 0 {
      ReplaceAllAbsent(s[1..], c, rep);
      assert [s[0]] + s[1..] == s;
    }
  }

  /** A character missing from every part and from the separator is missing
      from the join. */
  lemma {:induction false} JoinAvoids(parts: seq<string>, sep: string, c: char)
    requires c !in sep
    requires forall k :: 0 <= k < |parts| ==> c !in parts[k]
    ensures c !in Join(parts, sep)
  {
    if |parts| > 1 {
      JoinAvoids(parts[1..], sep, c);
    }
  }
}

/** The two helpers of the hand-written worksheet: column names and escaped cell texts. */
module Spreadsheet {
  import opened Wrappers

  // ---------- column names ----------

  predicate IsName(s: string) { forall i :: 0 <= i < |s| ==> 'A' <= s[i] <= 'Z' }

  /** The column a name stands for: base 26 with the digits A = 1 to Z = 26. */
  function ColumnNumber(s: string, n: nat): nat
    requires n <= |s| && IsName(s)
  {
    if n == 0 then 0 else 26 * ColumnNumber(s, n - 1) + (s[n - 1] as int - 'A' as int + 1)
  }

  lemma {:induction false} NumberOfJoined(a: string, b: string, n: nat)
    requires IsName(a) && IsName(b) && n <= |b|
    ensures ColumnNumber(a + b, |a| + n) == ColumnNumber(a, |a|) * Pow26(n) + ColumnNumber(b, n)
  {
    if n == 0 {
      NumberOfPrefix(a, b, |a|);
    } else {
      NumberOfJoined(a, b, n - 1);
      Distribute(ColumnNumber(a, |a|), Pow26(n - 1));
    }
  }

  lemma {:induction false} Distribute(x: nat, p: nat)
    ensures 26 * (x * p) == x * (26 * p)
  {
  }

  lemma {:induction false} NumberOfPrefix(a: string, b: string, n: nat)
    requires IsName(a) && IsName(b) && n <= |a|
    ensures ColumnNumber(a + b, n) == ColumnNumber(a, n)
  {
    if n > 0 { NumberOfPrefix(a, b, n - 1); }
  }

  function Pow26(n: nat): nat { if n == 0 then 1 else 26 * Pow26(n - 1) }

  /** columnName: the letters come last to first. */
  method ColumnName(index: nat) returns (name: string)
    ensures IsName(name) && ColumnNumber(name, |name|) == index
  {
    var value: nat := index;
    name := "";
    assert Pow26(0) == 1 && ColumnNumber(name, 0) == 0;
    while value > 0
      invariant IsName(name) && value * Pow26(|name|) + ColumnNumber(name, |name|) == index
    {
      var remainder := (value - 1) % 26;
      var letter := [('A' as int + remainder) as char];
      PrependLetter(letter, name, value);
      name := letter + name;
      value := (value - 1) / 26;
    }
    assert value * Pow26(|name|) == 0;
  }

  lemma {:induction false} PrependLetter(letter: string, name: string, value: nat)
    requires value > 0 && IsName(name) && letter == [('A' as int + (value - 1) % 26) as char]
    ensures IsName(letter + name)
    ensures var rest := (value - 1) / 26;
            rest * Pow26(|name| + 1) + ColumnNumber(letter + name, |letter + name|)
            == value * Pow26(|name|) + ColumnNumber(name, |name|)
  {
    NumberOfJoined(letter, name, |name|);
    assert ColumnNumber(letter, 0) == 0;
    assert ColumnNumber(letter, 1) == (value - 1) % 26 + 1;
    Regroup((value - 1) / 26, (value - 1) % 26 + 1, Pow26(|name|));
  }

  lemma {:induction false} Regroup(rest: nat, digit: nat, p: nat)
    ensures rest * (26 * p) + digit * p == (26 * rest + digit) * p
  {
  }

  /** No two names stand for the same column, so the name that ColumnName finds is the only one. */
  lemma {:induction false} NameIsUnique(s: string, m: nat, t: string, n: nat)
    requires IsName(s) && IsName(t) && m <= |s| && n <= |t| && ColumnNumber(s, m) == ColumnNumber(t, n)
    ensures m == n && s[..m] == t[..n]
  {
    if m > 0 && n > 0 {
      NameIsUnique(s, m - 1, t, n - 1);
      assert s[..m] == s[..m - 1] + [s[m - 1]] && t[..n] == t[..n - 1] + [t[n - 1]];
    }
  }

  // ---------- escaped texts ----------

  /** String.replace of every occurrence of a character. */
  function ReplaceAll(s: string, c: char, with: string): string {
    if s == [] then [] else (if s[0] == c then with else [s[0]]) + ReplaceAll(s[1..], c, with)
  }

  function EscapeXml(s: string): string {
    ReplaceAll(ReplaceAll(ReplaceAll(ReplaceAll(s, '&', "&amp;"), '<', "&lt;"), '>', "&gt;"), '"', "&quot;")
  }

  lemma {:induction false} ReplaceJoined(a: string, b: string, c: char, with: string)
    ensures ReplaceAll(a + b, c, with) == ReplaceAll(a, c, with) + ReplaceAll(b, c, with)
  {
    if a == [] {
      assert a + b == b;
    } else {
      ReplaceJoined(a[1..], b, c, with);
      assert (a + b)[1..] == a[1..] + b && (a + b)[0] == a[0];
    }
  }

  lemma {:induction false} Untouched(s: string, c: char, with: string)
    requires c !in s
    ensures ReplaceAll(s, c, with) == s
  {
    if s != [] { Untouched(s[1..], c, with); }
  }

  /** The four references of section 4.6 of the XML recommendation that the writer uses. */
  function Reference(c: char): string {
    match c case '&' => "&amp;" case '<' => "&lt;" case '>' => "&gt;" case '"' => "&quot;" case _ => [c]
  }

  lemma {:induction false} EscapeOne(c: char)
    ensures EscapeXml([c]) == Reference(c)
  {
    hide ReplaceAll;
    var first := if c == '&' then "&amp;" else [c];
    ReplaceOne(c, '&', "&amp;");
    assert ReplaceAll([c], '&', "&amp;") == first;
    if c == '<' {
      ReplaceOne(c, '<', "&lt;");
      Untouched("&lt;", '>', "&gt;");
      Untouched("&lt;", '"', "&quot;");
    } else {
      Untouched(first, '<', "&lt;");
      if c == '>' {
        ReplaceOne(c, '>', "&gt;");
        Untouched("&gt;", '"', "&quot;");
      } else {
        Untouched(first, '>', "&gt;");
        if c == '"' { ReplaceOne(c, '"', "&quot;"); } else { Untouched(first, '"', "&quot;"); }
      }
    }
  }

  lemma {:induction false} ReplaceOne(c: char, of: char, with: string)
    ensures ReplaceAll([c], of, with) == if c == of then with else [c]
  {
    assert ReplaceAll([c][1..], of, with) == [];
  }

  /** The four passes in this order escape character by character: no pass touches what an earlier
      one wrote. */
  lemma {:induction false} EscapesEachCharacter(s: string)
    requires s != []
    ensures EscapeXml(s) == Reference(s[0]) + EscapeXml(s[1..])
  {
    hide ReplaceAll;
    assert s == [s[0]] + s[1..];
    ReplaceJoined([s[0]], s[1..], '&', "&amp;");
    var a, b := ReplaceAll([s[0]], '&', "&amp;"), ReplaceAll(s[1..], '&', "&amp;");
    ReplaceJoined(a, b, '<', "&lt;");
    var a1, b1 := ReplaceAll(a, '<', "&lt;"), ReplaceAll(b, '<', "&lt;");
    ReplaceJoined(a1, b1, '>', "&gt;");
    ReplaceJoined(ReplaceAll(a1, '>', "&gt;"), ReplaceAll(b1, '>', "&gt;"), '"', "&quot;");
    EscapeOne(s[0]);
  }

  predicate StartsWith(s: string, t: string) { |s| >= |t| && s[..|t|] == t }

  /** What a reader of character data makes of a text: references are resolved, and a bare
      ampersand, angle bracket or quote is an error. */
  function Unescape(s: string): Option<string>
    decreases |s|
  {
    if s == [] then Some([])
    else if StartsWith(s, "&amp;") then After('&', s, 5)
    else if StartsWith(s, "&lt;") then After('<', s, 4)
    else if StartsWith(s, "&gt;") then After('>', s, 4)
    else if StartsWith(s, "&quot;") then After('"', s, 6)
    else if s[0] in {'&', '<', '>', '"'} then None
    else After(s[0], s, 1)
  }

  function After(c: char, s: string, n: nat): Option<string>
    requires 0 < n <= |s|
    decreases |s|, 0
  {
    var rest :- Unescape(s[n..]);
    Some([c] + rest)
  }

  lemma {:induction false} UnescapeOne(c: char, rest: string)
    ensures Unescape(Reference(c) + rest) == if Unescape(rest) == None then None else Some([c] + Unescape(rest).value)
  {
    var s := Reference(c) + rest;
    assert s[..|Reference(c)|] == Reference(c) && s[|Reference(c)|..] == rest;
    assert s[0] == Reference(c)[0];
    if |Reference(c)| > 1 {
      assert s[1] == Reference(c)[1];
      SecondIs(s, "&amp;");
      SecondIs(s, "&lt;");
      SecondIs(s, "&gt;");
    } else {
      FirstIs(s, "&amp;");
      FirstIs(s, "&lt;");
      FirstIs(s, "&gt;");
      FirstIs(s, "&quot;");
    }
  }

  lemma {:induction false} SecondIs(s: string, t: string)
    requires |t| > 1
    ensures StartsWith(s, t) ==> s[1] == t[1]
  {
    if StartsWith(s, t) { assert s[..|t|][1] == s[1]; }
  }

  lemma {:induction false} FirstIs(s: string, t: string)
    requires |t| > 0
    ensures StartsWith(s, t) ==> s[0] == t[0]
  {
    if StartsWith(s, t) { assert s[..|t|][0] == s[0]; }
  }

  /** The escaped text of a cell reads back as the text. */
  lemma {:induction false} ReadBack(s: string)
    ensures Unescape(EscapeXml(s)) == Some(s)
  {
    if s == [] {
      assert EscapeXml(s) == [];
    } else {
      hide EscapeXml, Unescape, Reference;
      assert s == [s[0]] + s[1..];
      EscapesEachCharacter(s);
      ReadBack(s[1..]);
      UnescapeOne(s[0], EscapeXml(s[1..]));
    }
  }
}

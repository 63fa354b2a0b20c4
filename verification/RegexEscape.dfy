/**
  Escaping a text for use in a regular expression: thirteen replacements over the whole string, one
  after the other, which come to one escape per character because the backslash goes first.
 */
module RegexEscapes {

  const Backslash: char := '\\'

  // Every `c` gets a backslash in front.
  function Replace(s: string, c: char): string {
    if s == "" then ""
    else (if s[0] == c then [Backslash, c] else [s[0]]) + Replace(s[1..], c)
  }

  // The replacements of `chars`, from the first to the last.
  function ReplaceAll(s: string, chars: seq<char>): string
    decreases |chars|
  {
    if chars == [] then s else ReplaceAll(Replace(s, chars[0]), chars[1..])
  }

  // One pass: every character of `chars` gets a backslash in front.
  function Escape(s: string, chars: set<char>): string {
    if s == "" then ""
    else (if s[0] in chars then [Backslash, s[0]] else [s[0]]) + Escape(s[1..], chars)
  }

  // A backslash gives way to the character behind it.
  function Unescape(s: string): string {
    if s == "" then ""
    else if s[0] == Backslash && |s| > 1 then [s[1]] + Unescape(s[2..])
    else [s[0]] + Unescape(s[1..])
  }

  const Special: seq<char> := [Backslash, '^', '.', '$', '|', '(', ')', '[', ']', '*', '+', '?', '/']

  // The escape as the program runs it.
  method RegexEscape(text: string) returns (escaped: string)
    ensures escaped == Escape(text, set c | c in "\\^.$|()[]*+?/")
    ensures Unescape(escaped) == text
  {
    hide Replace, ReplaceAll, Escape, Unescape;
    escaped := Replace(text, Backslash);
    escaped := Replace(escaped, '^');
    escaped := Replace(escaped, '.');
    escaped := Replace(escaped, '$');
    escaped := Replace(escaped, '|');
    escaped := Replace(escaped, '(');
    escaped := Replace(escaped, ')');
    escaped := Replace(escaped, '[');
    escaped := Replace(escaped, ']');
    escaped := Replace(escaped, '*');
    escaped := Replace(escaped, '+');
    escaped := Replace(escaped, '?');
    escaped := Replace(escaped, '/');
    SpecialUnrolls(text);
    ChainIsOnePass(text, Special);
    assert Backslash in Members(Special) by { MembersHas(Special, 0); }
    UnescapeEscape(text, Members(Special));
    assert Special == "\\^.$|()[]*+?/";
  }

  // Character by character: one of `chars` gets a backslash in front, any other stays as it is.
  lemma {:induction false} EscapeMeans(a: string, b: string, c: char, chars: set<char>)
    ensures Escape("", chars) == "" && Escape([c], chars) == (if c in chars then ['\\', c] else [c])
    ensures Escape(a + b, chars) == Escape(a, chars) + Escape(b, chars)
    decreases |a|
  {
    assert [c][1..] == "";
    if a == "" {
      assert a + b == b;
    } else {
      assert (a + b)[1..] == a[1..] + b;
      EscapeMeans(a[1..], b, c, chars);
    }
  }

  function Members(chars: seq<char>): set<char> {
    set c | c in chars
  }

  predicate Distinct(chars: seq<char>) {
    forall i, j | 0 <= i < j < |chars| :: chars[i] != chars[j]
  }

  // Nothing is replaced before the backslash is.
  predicate BackslashFirst(chars: seq<char>) {
    forall i | 0 < i < |chars| :: chars[i] != Backslash
  }

  lemma MembersHas(chars: seq<char>, i: nat)
    requires i < |chars|
    ensures chars[i] in Members(chars)
  {
  }

  // ---------------------------------------------------------------- a chain of replacements is one pass

  lemma {:induction false} ReplaceAppend(a: string, b: string, c: char)
    ensures Replace(a + b, c) == Replace(a, c) + Replace(b, c)
  {
    if a == "" {
      assert a + b == b;
    } else {
      assert (a + b)[1..] == a[1..] + b;
      ReplaceAppend(a[1..], b, c);
    }
  }

  // A character that is neither escaped yet nor used for escaping can be escaped afterwards.
  lemma {:induction false} ReplaceExtends(s: string, chars: set<char>, c: char)
    requires c != Backslash || chars == {}
    requires c !in chars
    ensures Replace(Escape(s, chars), c) == Escape(s, chars + {c})
  {
    if s != "" {
      var first := if s[0] in chars then [Backslash, s[0]] else [s[0]];
      ReplaceAppend(first, Escape(s[1..], chars), c);
      ReplaceExtends(s[1..], chars, c);
      ReplaceOne(s[0], c);
      if s[0] in chars {
        assert [Backslash, s[0]] == [Backslash] + [s[0]];
        ReplaceAppend([Backslash], [s[0]], c);
        ReplaceOne(Backslash, c);
      }
    }
  }

  lemma ReplaceOne(x: char, c: char)
    ensures Replace([x], c) == if x == c then [Backslash, c] else [x]
  {
  }

  lemma {:induction false} EscapeNothing(s: string)
    ensures Escape(s, {}) == s
  {
    if s != "" {
      EscapeNothing(s[1..]);
    }
  }

  lemma {:induction false} ChainFrom(s: string, done: set<char>, chars: seq<char>)
    requires Distinct(chars) && forall c | c in chars :: c !in done
    requires BackslashFirst(chars) && (done != {} ==> Backslash !in chars)
    ensures ReplaceAll(Escape(s, done), chars) == Escape(s, done + Members(chars))
    decreases |chars|
  {
    if chars == [] {
      assert done + Members(chars) == done;
    } else {
      var c, rest := chars[0], chars[1..];
      assert c in chars && forall x | x in rest :: x in chars;
      assert forall i | 0 <= i < |rest| :: rest[i] == chars[i + 1];
      ReplaceExtends(s, done, c);
      assert c !in rest;
      ChainFrom(s, done + {c}, rest);
      assert done + {c} + Members(rest) == done + Members(chars);
    }
  }

  // For every string: the chain equals one escape per character.
  lemma ChainIsOnePass(s: string, chars: seq<char>)
    requires Distinct(chars) && BackslashFirst(chars)
    ensures ReplaceAll(s, chars) == Escape(s, Members(chars))
  {
    EscapeNothing(s);
    ChainFrom(s, {}, chars);
    assert {} + Members(chars) == Members(chars);
  }

  // A chain of replacements of different characters is one pass on every string if and only if the
  // backslash, where it is replaced, is replaced first.
  lemma ChainIsOnePassIff(chars: seq<char>)
    requires Distinct(chars)
    ensures (forall s: string :: ReplaceAll(s, chars) == Escape(s, Members(chars))) <==> BackslashFirst(chars)
  {
    if BackslashFirst(chars) {
      forall s: string ensures ReplaceAll(s, chars) == Escape(s, Members(chars)) {
        ChainIsOnePass(s, chars);
      }
    } else {
      var s := [chars[0]];
      LateBackslash(chars);
      assert s[1..] == "" && |Escape(s, Members(chars))| <= 2;
    }
  }

  lemma {:induction false} ReplaceGrows(s: string, c: char)
    ensures |Replace(s, c)| >= |s|
    ensures c in s ==> |Replace(s, c)| > |s|
    ensures forall x | x in s :: x in Replace(s, c)
  {
    if s != "" {
      ReplaceGrows(s[1..], c);
      assert forall x | x in s :: x == s[0] || x in s[1..];
    }
  }

  lemma {:induction false} ReplaceAllGrows(s: string, chars: seq<char>)
    ensures |ReplaceAll(s, chars)| >= |s|
    ensures Backslash in s && Backslash in chars ==> |ReplaceAll(s, chars)| > |s|
    decreases |chars|
  {
    if chars != [] {
      ReplaceGrows(s, chars[0]);
      ReplaceAllGrows(Replace(s, chars[0]), chars[1..]);
    }
  }

  // A backslash that came from escaping is escaped again if the backslash is replaced later.
  lemma LateBackslash(chars: seq<char>)
    requires !BackslashFirst(chars)
    ensures |ReplaceAll([chars[0]], chars)| > 2
  {
    var s := [chars[0]];
    ReplaceOne(chars[0], chars[0]);
    assert Backslash in chars[1..] by {
      var i :| 0 < i < |chars| && chars[i] == Backslash;
      assert chars[1..][i - 1] == Backslash;
    }
    ReplaceAllGrows([Backslash, chars[0]], chars[1..]);
  }

  lemma Unroll(s: string, a: char, b: char, c: char, d: char, rest: seq<char>)
    ensures ReplaceAll(s, [a, b, c, d] + rest) == ReplaceAll(Replace(Replace(Replace(Replace(s, a), b), c), d), rest)
  {
    hide Replace;
    assert ([a, b, c, d] + rest)[1..] == [b, c, d] + rest;
    assert ([b, c, d] + rest)[1..] == [c, d] + rest;
    assert ([c, d] + rest)[1..] == [d] + rest;
    assert ([d] + rest)[1..] == rest;
    FirstOff(s, [a, b, c, d] + rest);
    FirstOff(Replace(s, a), [b, c, d] + rest);
    FirstOff(Replace(Replace(s, a), b), [c, d] + rest);
    FirstOff(Replace(Replace(Replace(s, a), b), c), [d] + rest);
  }

  lemma SpecialUnrolls(s: string)
    ensures ReplaceAll(s, Special) ==
              Replace(Replace(Replace(Replace(Replace(Replace(Replace(Replace(Replace(Replace(Replace(Replace(Replace(
                s, Backslash), '^'), '.'), '$'), '|'), '('), ')'), '['), ']'), '*'), '+'), '?'), '/')
    ensures Distinct(Special) && BackslashFirst(Special)
  {
    hide Replace, ReplaceAll;
    var three := ['*', '+', '?', '/'] + [];
    var two := ['(', ')', '[', ']'] + three;
    var one := ['^', '.', '$', '|'] + two;
    assert Special == [Backslash] + one && Special[1..] == one;
    var s1 := Replace(s, Backslash);
    var s2 := Replace(Replace(Replace(Replace(s1, '^'), '.'), '$'), '|');
    var s3 := Replace(Replace(Replace(Replace(s2, '('), ')'), '['), ']');
    assert ReplaceAll(s, Special) == ReplaceAll(s1, one) by { FirstOff(s, Special); }
    Unroll(s1, '^', '.', '$', '|', two);
    Unroll(s2, '(', ')', '[', ']', three);
    Unroll(s3, '*', '+', '?', '/', []);
    ReplaceNone(Replace(Replace(Replace(Replace(s3, '*'), '+'), '?'), '/'));
  }

  lemma FirstOff(s: string, chars: seq<char>)
    requires chars != []
    ensures ReplaceAll(s, chars) == ReplaceAll(Replace(s, chars[0]), chars[1..])
  {
  }

  lemma ReplaceNone(s: string)
    ensures ReplaceAll(s, []) == s
  {
  }

  // ---------------------------------------------------------------- and can be undone

  lemma {:induction false} UnescapeEscape(s: string, chars: set<char>)
    requires Backslash in chars
    ensures Unescape(Escape(s, chars)) == s
  {
    if s != "" {
      UnescapeEscape(s[1..], chars);
      var rest, e := Escape(s[1..], chars), Escape(s, chars);
      if s[0] in chars {
        assert e[0] == Backslash && e[1] == s[0] && e[2..] == rest;
      } else {
        assert e[0] == s[0] != Backslash && e[1..] == rest;
      }
    }
  }

  // Removing the escapes of `s` recovers it.
  predicate Recovers(s: string, chars: set<char>) {
    Unescape(Escape(s, chars)) == s
  }

  // Of two backslashes that are not escaped one is lost.
  lemma BareBackslashes(chars: set<char>)
    requires Backslash !in chars
    ensures !Recovers([Backslash, Backslash], chars)
  {
    var one, two := [Backslash], [Backslash, Backslash];
    assert one[1..] == "" && two[1..] == one && two[2..] == "";
    assert Escape("", chars) == "";
    assert Escape(one, chars) == one + Escape("", chars) == one;
    assert Escape(two, chars) == one + Escape(one, chars) == two;
    assert Unescape("") == "";
    assert Unescape(two) == one + Unescape("") == one;
  }

  // Removing the escapes recovers every string if and only if the backslash itself is escaped.
  lemma UnescapeEscapeIff(chars: set<char>)
    ensures (forall s: string :: Recovers(s, chars)) <==> Backslash in chars
  {
    hide Recovers;
    if Backslash in chars {
      forall s: string ensures Recovers(s, chars) {
        UnescapeIsRecovery(s, chars);
      }
    } else {
      BareBackslashes(chars);
    }
  }

  lemma UnescapeIsRecovery(s: string, chars: set<char>)
    requires Backslash in chars
    ensures Recovers(s, chars)
  {
    UnescapeEscape(s, chars);
  }

  // Different strings have different escapes.
  lemma EscapeInjective(a: string, b: string)
    requires Escape(a, Members(Special)) == Escape(b, Members(Special))
    ensures a == b
  {
    MembersHas(Special, 0);
    UnescapeEscape(a, Members(Special));
    UnescapeEscape(b, Members(Special));
  }
}

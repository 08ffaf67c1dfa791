/** The ILIKE patterns that the name filter builds: "%" + name + "%". */
module LikePattern {

  /** Case folding of the ASCII letters. */
  function Fold(c: char): char {
    if 'A' <= c <= 'Z' then (c as int + 32) as char else c
  }

  /** Two characters fold together exactly when they are the same, or one ASCII letter in both cases. */
  lemma FoldIff(a: char, b: char)
    ensures Fold(a) == Fold(b)
       <==> || a == b
            || ('A' <= a <= 'Z' && b as int - a as int == 'a' as int - 'A' as int)
            || ('A' <= b <= 'Z' && a as int - b as int == 'a' as int - 'A' as int)
  {
  }

  predicate SameFold(a: string, b: string) {
    |a| == |b| && forall i | 0 <= i < |a| :: Fold(a[i]) == Fold(b[i])
  }

  /** text ILIKE pattern: '%' stands for any string, '_' for any character, and '\' makes the next one literal. */
  predicate ILike(text: string, pattern: string)
    decreases |pattern|, |text|
  {
    if pattern == "" then text == ""
    else if pattern[0] == '%' then
      ILike(text, pattern[1..]) || (text != "" && ILike(text[1..], pattern))
    else if pattern[0] == '\\' && |pattern| > 1 then
      text != "" && Fold(text[0]) == Fold(pattern[1]) && ILike(text[1..], pattern[2..])
    else
      text != "" && (pattern[0] == '_' || Fold(text[0]) == Fold(pattern[0])) && ILike(text[1..], pattern[1..])
  }

  function Substring(name: string): string {
    "%" + name + "%"
  }

  /** Case-insensitive substring search. */
  ghost predicate Contains(text: string, name: string) {
    exists i :: ContainsAt(text, name, i)
  }

  predicate ContainsAt(text: string, name: string, i: int) {
    0 <= i <= |text| - |name| && SameFold(text[i..i + |name|], name)
  }

  predicate IsMeta(c: char) {
    c == '%' || c == '_' || c == '\\'
  }

  predicate HasMeta(name: string) {
    exists i | 0 <= i < |name| :: IsMeta(name[i])
  }

  lemma {:induction false} PercentMatchesAll(text: string)
    ensures ILike(text, "%")
  {
    if text == "" {
      assert "%"[1..] == "";
    } else {
      PercentMatchesAll(text[1..]);
    }
  }

  /** A pattern that starts with '%' matches where the rest matches some end of the text. */
  lemma {:induction false} PercentSearches(text: string, rest: string)
    ensures ILike(text, "%" + rest) <==> exists i :: 0 <= i <= |text| && ILike(text[i..], rest)
    decreases |text|
  {
    assert ("%" + rest)[1..] == rest;
    if text == "" {
      assert text[0..] == text;
    } else {
      PercentSearches(text[1..], rest);
      if ILike(text[1..], "%" + rest) {
        var i :| 0 <= i <= |text[1..]| && ILike(text[1..][i..], rest);
        assert text[1..][i..] == text[i + 1..];
      }
      if i :| 0 <= i <= |text| && ILike(text[i..], rest) {
        if i == 0 {
          assert text[0..] == text;
        } else {
          assert text[1..][i - 1..] == text[i..];
        }
      }
    }
  }

  /** A plain name followed by '%' matches what starts with the name. */
  lemma {:induction false} LiteralMatches(text: string, name: string)
    requires !HasMeta(name)
    ensures ILike(text, name + "%") <==> ContainsAt(text, name, 0)
    decreases |name|
  {
    if name == "" {
      assert name + "%" == "%";
      PercentMatchesAll(text);
      assert text[0..0] == name;
    } else {
      var pattern := name + "%";
      assert !IsMeta(name[0]);
      assert pattern[0] == name[0] && pattern[1..] == name[1..] + "%";
      if text != "" {
        LiteralMatches(text[1..], name[1..]);
        if |text| >= |name| {
          assert text[1..][0..|name[1..]|] == text[0..|name|][1..];
          if ContainsAt(text, name, 0) {
            assert Fold(text[0..|name|][0]) == Fold(name[0]);
            forall i | 0 <= i < |name[1..]| ensures Fold(text[1..][0..|name[1..]|][i]) == Fold(name[1..][i]) {
              assert Fold(text[0..|name|][i + 1]) == Fold(name[i + 1]);
            }
          }
          if Fold(text[0]) == Fold(name[0]) && ContainsAt(text[1..], name[1..], 0) {
            forall i | 0 <= i < |name| ensures Fold(text[0..|name|][i]) == Fold(name[i]) {
              if i > 0 {
                assert Fold(text[1..][0..|name[1..]|][i - 1]) == Fold(name[1..][i - 1]);
              }
            }
          }
        }
      }
    }
  }

  /** For a name without LIKE metacharacters the filter is a case-insensitive substring search. */
  lemma PlainNameSearches(text: string, name: string)
    requires !HasMeta(name)
    ensures ILike(text, Substring(name)) <==> Contains(text, name)
  {
    assert Substring(name) == "%" + (name + "%");
    PercentSearches(text, name + "%");
    forall i | 0 <= i <= |text| ensures ILike(text[i..], name + "%") <==> ContainsAt(text, name, i) {
      LiteralMatches(text[i..], name);
      if |name| <= |text| - i {
        assert text[i..][0..|name|] == text[i..i + |name|];
      }
    }
    if ILike(text, Substring(name)) {
      var i :| 0 <= i <= |text| && ILike(text[i..], name + "%");
      assert ContainsAt(text, name, i);
    }
    if Contains(text, name) {
      var i :| ContainsAt(text, name, i);
      assert 0 <= i <= |text| && ILike(text[i..], name + "%");
    }
  }

  /** A text that the pattern of `name` matches: '%' read as nothing, '_' as a letter, escapes dropped. */
  function Reading(name: string): string {
    if name == "" then ""
    else if name[0] == '%' then Reading(name[1..])
    else if name[0] == '_' then "x" + Reading(name[1..])
    else if name[0] == '\\' then (if |name| > 1 then [name[1]] + Reading(name[2..]) else "%")
    else [name[0]] + Reading(name[1..])
  }

  lemma {:induction false} ReadingMatches(name: string)
    ensures ILike(Reading(name), name + "%")
  {
    var pattern := name + "%";
    if name == "" {
      assert pattern == "%";
      PercentMatchesAll("");
    } else if name[0] == '\\' {
      if |name| > 1 {
        assert pattern[2..] == name[2..] + "%" && pattern[1] == name[1];
        assert Reading(name)[1..] == Reading(name[2..]);
        ReadingMatches(name[2..]);
      } else {
        assert pattern == "\\%" && pattern[2..] == "";
      }
    } else {
      assert pattern[1..] == name[1..] + "%";
      ReadingMatches(name[1..]);
      if name[0] != '%' {
        assert Reading(name)[1..] == Reading(name[1..]);
      }
    }
  }

  lemma SameFoldTail(a: string, b: string)
    requires a != "" && b != ""
    ensures SameFold(a, b) ==> SameFold(a[1..], b[1..])
  {
    if SameFold(a, b) {
      forall i | 0 <= i < |a[1..]| ensures Fold(a[1..][i]) == Fold(b[1..][i]) {
        assert Fold(a[i + 1]) == Fold(b[i + 1]);
      }
    }
  }

  lemma HasMetaTail(name: string)
    requires name != "" && !IsMeta(name[0])
    ensures HasMeta(name) ==> HasMeta(name[1..])
  {
    if i :| 0 <= i < |name| && IsMeta(name[i]) {
      assert IsMeta(name[1..][i - 1]);
    }
  }

  lemma {:induction false} ReadingDiffers(name: string)
    ensures |Reading(name)| <= |name|
    ensures HasMeta(name) ==> !SameFold(Reading(name), name)
  {
    if name != "" {
      var r := Reading(name);
      if IsMeta(name[0]) {
        if name[0] == '\\' {
          if |name| > 1 {
            ReadingDiffers(name[2..]);
          }
        } else {
          ReadingDiffers(name[1..]);
        }
        assert |r| < |name| || Fold(r[0]) != Fold(name[0]);
      } else {
        ReadingDiffers(name[1..]);
        HasMetaTail(name);
        assert r[1..] == Reading(name[1..]);
        SameFoldTail(r, name);
      }
    }
  }

  /** The filter is a substring search on every text exactly for the names without metacharacters. */
  lemma SubstringSearchIff(name: string)
    ensures (forall text: string :: ILike(text, Substring(name)) <==> Contains(text, name)) <==> !HasMeta(name)
  {
    if HasMeta(name) {
      var text := Reading(name);
      ReadingMatches(name);
      PercentSearches(text, name + "%");
      assert text[0..] == text;
      assert Substring(name) == "%" + (name + "%");
      assert ILike(text, Substring(name));
      ReadingDiffers(name);
      forall i ensures !ContainsAt(text, name, i) {
        if 0 <= i <= |text| - |name| {
          assert text[i..i + |name|] == text;
        }
      }
      assert !Contains(text, name);
    } else {
      forall text: string ensures ILike(text, Substring(name)) <==> Contains(text, name) {
        PlainNameSearches(text, name);
      }
    }
  }
}

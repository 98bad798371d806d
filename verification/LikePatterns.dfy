/**
  The search clause of the three list queries: `$k = '' OR title ILIKE '%' || $k || '%'`. The matcher below is the
  LIKE of PostgreSQL, with backslash as its escape character; ILIKE folds the case of both sides (ASCII letters).
*/
module LikePatterns {

  function FoldChar(c: char): char {
    if 'A' <= c <= 'Z' then (c as int + 32) as char else c
  }

  function Lower(s: string): (r: string)
    ensures |r| == |s| && forall i :: 0 <= i < |s| ==> r[i] == FoldChar(s[i])
  {
    if s == [] then [] else [FoldChar(s[0])] + Lower(s[1..])
  }

  function Like(text: string, pattern: string): bool
    decreases |text| + |pattern|
  {
    if pattern == [] then text == []
    else if pattern[0] == '%' then Like(text, pattern[1..]) || (text != [] && Like(text[1..], pattern))
    else if pattern[0] == '_' then text != [] && Like(text[1..], pattern[1..])
    else if pattern[0] == '\\' then
      // a pattern that ends in its escape character is an error; the patterns built here end in %
      |pattern| > 1 && text != [] && text[0] == pattern[1] && Like(text[1..], pattern[2..])
    else text != [] && text[0] == pattern[0] && Like(text[1..], pattern[1..])
  }

  function ILike(text: string, pattern: string): bool {
    Like(Lower(text), Lower(pattern))
  }

  /** The clause as the queries have it. */
  predicate SearchKeeps(search: string, title: string) {
    search == "" || ILike(title, "%" + search + "%")
  }

  ghost predicate Contains(text: string, part: string) {
    exists i :: 0 <= i <= |text| - |part| && part <= text[i..]
  }

  /** The same character, or the two cases of one letter. */
  predicate SameLetter(c: char, d: char) {
    || c == d
    || ('A' <= c <= 'Z' && d as int == c as int + 32)
    || ('A' <= d <= 'Z' && c as int == d as int + 32)
  }

  predicate OccursAt(title: string, search: string, i: nat) {
    i + |search| <= |title| && forall k :: 0 <= k < |search| ==> SameLetter(title[i + k], search[k])
  }

  /** The search occurs somewhere in the title, letter by letter, ignoring case. */
  ghost predicate Occurs(title: string, search: string) {
    exists i: nat :: OccursAt(title, search, i)
  }

  lemma FoldsAlike(c: char, d: char)
    ensures FoldChar(c) == FoldChar(d) <==> SameLetter(c, d)
  {
  }

  lemma OccursAtFolded(title: string, search: string, i: nat)
    requires i + |search| <= |title|
    ensures Lower(search) <= Lower(title)[i..] <==> OccursAt(title, search, i)
  {
    forall k | 0 <= k < |search|
      ensures Lower(title)[i..][k] == Lower(search)[k] <==> SameLetter(title[i + k], search[k])
    {
      FoldsAlike(title[i + k], search[k]);
    }
  }

  lemma ContainsFolded(title: string, search: string)
    ensures Contains(Lower(title), Lower(search)) <==> Occurs(title, search)
  {
    if Contains(Lower(title), Lower(search)) {
      var i :| 0 <= i <= |title| - |search| && Lower(search) <= Lower(title)[i..];
      OccursAtFolded(title, search, i);
    }
    if i: nat :| OccursAt(title, search, i) {
      OccursAtFolded(title, search, i);
    }
  }

  predicate Plain(s: string) {
    forall i :: 0 <= i < |s| ==> s[i] != '%' && s[i] != '_' && s[i] != '\\'
  }

  // ---------------------------------------------------------------- plain searches

  lemma {:induction false} PercentSkips(text: string, rest: string)
    ensures Like(text, "%" + rest) <==> exists i :: 0 <= i <= |text| && Like(text[i..], rest)
    decreases |text|
  {
    assert ("%" + rest)[1..] == rest;
    if text == [] {
      assert text[0..] == text;
    } else {
      PercentSkips(text[1..], rest);
      if Like(text[1..], "%" + rest) {
        var i :| 0 <= i <= |text[1..]| && Like(text[1..][i..], rest);
        assert text[1..][i..] == text[i + 1..];
      }
      if exists i :: 0 <= i <= |text| && Like(text[i..], rest) {
        var i :| 0 <= i <= |text| && Like(text[i..], rest);
        if i == 0 {
          assert text[0..] == text;
        } else {
          assert text[1..][i - 1..] == text[i..];
        }
      }
      if Like(text, rest) {
        assert text[0..] == text;
      }
    }
  }

  lemma {:induction false} PlainIsPrefix(text: string, part: string)
    requires Plain(part)
    ensures Like(text, part + "%") <==> part <= text
    decreases |part|
  {
    if part == [] {
      assert part + "%" == "%" + "";
      PercentSkips(text, "");
      assert text[|text|..] == [];
    } else {
      assert (part + "%")[1..] == part[1..] + "%";
      if text != [] {
        PlainIsPrefix(text[1..], part[1..]);
        assert text == [text[0]] + text[1..] && part == [part[0]] + part[1..];
      }
    }
  }

  lemma LowerOfPattern(search: string)
    ensures Lower("%" + search + "%") == "%" + (Lower(search) + "%")
    ensures Plain(Lower(search)) <==> Plain(search)
  {
    forall i | 0 <= i < |search|
      ensures Lower(search)[i] == '%' <==> search[i] == '%'
      ensures Lower(search)[i] == '_' <==> search[i] == '_'
      ensures Lower(search)[i] == '\\' <==> search[i] == '\\'
    {
    }
  }

  /** For a search free of %, _ and backslash the clause keeps exactly the titles that contain it, ignoring case;
      the empty search is one of these, and keeps everything. */
  lemma PlainSearch(search: string, title: string)
    requires Plain(search)
    ensures SearchKeeps(search, title) <==> Occurs(title, search)
  {
    ContainsFolded(title, search);
    var text, part := Lower(title), Lower(search);
    LowerOfPattern(search);
    PercentSkips(text, part + "%");
    forall i | 0 <= i <= |text| ensures Like(text[i..], part + "%") <==> part <= text[i..] {
      PlainIsPrefix(text[i..], part);
    }
    if search == "" {
      assert part <= text[0..];
    } else if Contains(text, part) {
      var i :| 0 <= i <= |text| - |part| && part <= text[i..];
      assert Like(text[i..], part + "%");
    }
  }

  // ---------------------------------------------------------------- searches with metacharacters

  /** A title that the pattern of this search matches by its metacharacters: each is replaced by something else
      that it stands for. */
  function Disguised(part: string): (r: string)
    ensures |r| <= |part|
  {
    if part == [] then []
    else if part[0] == '%' then Disguised(part[1..])
    else if part[0] == '_' then ['x'] + Disguised(part[1..])
    else if part[0] == '\\' then
      if |part| == 1 then ['%'] else [part[1]] + Disguised(part[2..])
    else [part[0]] + Disguised(part[1..])
  }

  lemma {:induction false} DisguisedMatches(part: string)
    ensures Like(Disguised(part), part + "%")
    decreases |part|
  {
    if part == [] {
      assert part + "%" == "%" + "";
      PercentSkips("", "");
    } else if part[0] == '\\' {
      if |part| == 1 {
        assert (part + "%")[2..] == [];
      } else {
        assert (part + "%")[2..] == part[2..] + "%";
        DisguisedMatches(part[2..]);
      }
    } else {
      assert (part + "%")[1..] == part[1..] + "%";
      DisguisedMatches(part[1..]);
    }
  }

  lemma {:induction false} DisguisedDiffers(part: string)
    requires Disguised(part) == part
    ensures Plain(part)
    decreases |part|
  {
    if part != [] {
      assert part[0] != '%' && part[0] != '_' && part[0] != '\\';
      assert Disguised(part)[1..] == Disguised(part[1..]);
      DisguisedDiffers(part[1..]);
      assert part == [part[0]] + part[1..];
    }
  }

  lemma {:induction false} DisguisedIsLower(part: string)
    requires Lower(part) == part
    ensures Lower(Disguised(part)) == Disguised(part)
    decreases |part|
  {
    if part != [] {
      assert forall i :: 0 <= i < |part| ==> FoldChar(part[i]) == part[i];
      if part[0] == '\\' && |part| > 1 {
        assert Lower(part[2..]) == part[2..];
        DisguisedIsLower(part[2..]);
      } else {
        assert Lower(part[1..]) == part[1..];
        DisguisedIsLower(part[1..]);
      }
    }
  }

  /** The clause means "contains, ignoring case" for every title if and only if the search is free of %, _ and
      backslash: the parameter is not escaped, so any of the three makes some title match that does not contain it. */
  lemma SearchMeansContainsExactlyWhenPlain(search: string)
    ensures (forall title: string :: SearchKeeps(search, title) <==> Occurs(title, search)) <==> Plain(search)
  {
    if Plain(search) {
      forall title: string ensures SearchKeeps(search, title) <==> Occurs(title, search) {
        PlainSearch(search, title);
      }
    } else {
      var part := Lower(search);
      var title := Disguised(part);
      LowerOfPattern(search);
      assert Lower(part) == part;
      DisguisedIsLower(part);
      DisguisedMatches(part);
      PercentSkips(title, part + "%");
      assert title[0..] == title;
      assert SearchKeeps(search, title);
      ContainsFolded(title, search);
      if Contains(Lower(title), part) {
        DisguisedDiffers(part);
      }
    }
  }
}

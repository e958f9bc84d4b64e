/**
  The name shown by the `user` route of bradweb.py: the path segment is put
  through `string.capwords` (split on runs of whitespace, capitalise each
  word, join the words with one space) and then cut to 39 characters when it
  is longer than 40.

  Case mapping is modelled for ASCII letters only; every other character
  keeps its case. Whitespace is the set Python's `str.split()` splits on.
*/
module NameNormalisation {

  /** The characters `str.split()` with no separator treats as whitespace. */
  predicate IsSpace(ch: char)
  {
    || (9 <= ch as int <= 13)
    || (28 <= ch as int <= 32)
    || ch as int == 0x85 || ch as int == 0xA0 || ch as int == 0x1680
    || (0x2000 <= ch as int <= 0x200A)
    || ch as int == 0x2028 || ch as int == 0x2029 || ch as int == 0x202F
    || ch as int == 0x205F || ch as int == 0x3000
  }

  predicate IsLowerAscii(ch: char) { 'a' <= ch <= 'z' }

  predicate IsUpperAscii(ch: char) { 'A' <= ch <= 'Z' }

  function ToUpper(ch: char): (r: char)
    ensures !IsLowerAscii(r)
    ensures IsSpace(r) <==> IsSpace(ch)
    ensures ToLower(r) == ToLower(ch)
  {
    if IsLowerAscii(ch) then (ch as int - 32) as char else ch
  }

  function ToLower(ch: char): (r: char)
    ensures !IsUpperAscii(r)
    ensures IsSpace(r) <==> IsSpace(ch)
  {
    if IsUpperAscii(ch) then (ch as int + 32) as char else ch
  }

  function LowerAll(w: string): (r: string)
    ensures |r| == |w|
  {
    seq(|w|, k requires 0 <= k < |w| => ToLower(w[k]))
  }

  predicate NoSpace(w: string)
  {
    forall k :: 0 <= k < |w| ==> !IsSpace(w[k])
  }

  /** What `str.split()` yields: a non-empty run of non-whitespace characters. */
  predicate IsWord(w: string)
  {
    |w| > 0 && NoSpace(w)
  }

  predicate AllWords(ws: seq<string>)
  {
    forall i :: 0 <= i < |ws| ==> IsWord(ws[i])
  }

  /** A capitalised word: no lower-case first letter, no upper-case letter after it. */
  predicate IsCapitalized(w: string)
  {
    && (|w| > 0 ==> !IsLowerAscii(w[0]))
    && forall k :: 1 <= k < |w| ==> !IsUpperAscii(w[k])
  }

  /**
    `str.capitalize`: the first character upper-cased, the rest lower-cased.
    The result is capitalised, has the same length and the same whitespace,
    and differs from the word only in case.
  */
  function Capitalize(w: string): (r: string)
    ensures |r| == |w|
    ensures IsCapitalized(r)
    ensures forall k :: 0 <= k < |w| ==> (IsSpace(r[k]) <==> IsSpace(w[k]))
    ensures LowerAll(r) == LowerAll(w)
  {
    if |w| == 0 then w
    else
      var r := [ToUpper(w[0])] + LowerAll(w[1..]);
      CapitalizeSameLetters(w, r);
      r
  }

  lemma CapitalizeSameLetters(w: string, r: string)
    requires |w| > 0 && r == [ToUpper(w[0])] + LowerAll(w[1..])
    ensures LowerAll(r) == LowerAll(w)
  {
    forall k | 0 <= k < |w|
      ensures LowerAll(r)[k] == LowerAll(w)[k]
    {
      if k > 0 {
        assert r[k] == ToLower(w[k]);
        LowerIdempotent(w[k]);
      }
    }
  }

  lemma LowerIdempotent(ch: char)
    ensures ToLower(ToLower(ch)) == ToLower(ch)
  {
  }

  /** A word that is already capitalised is left alone. */
  lemma CapitalizeIdempotent(w: string)
    ensures Capitalize(Capitalize(w)) == Capitalize(w)
  {
    var c := Capitalize(w);
    var cc := Capitalize(c);
    assert |cc| == |c|;
    forall k | 0 <= k < |c|
      ensures cc[k] == c[k]
    {
      if k > 0 {
        assert c[k] == ToLower(w[k]);
      }
    }
  }

  function CapitalizeAll(ws: seq<string>): (rs: seq<string>)
    ensures |rs| == |ws|
    ensures forall i :: 0 <= i < |ws| ==> rs[i] == Capitalize(ws[i])
  {
    seq(|ws|, i requires 0 <= i < |ws| => Capitalize(ws[i]))
  }

  /** The length of the leading run of non-whitespace characters of s. */
  function WordEnd(s: string): (n: nat)
    ensures n <= |s|
    ensures NoSpace(s[..n])
    ensures n < |s| ==> IsSpace(s[n])
    ensures |s| > 0 && !IsSpace(s[0]) ==> n > 0
  {
    if |s| == 0 || IsSpace(s[0]) then 0
    else
      var n := 1 + WordEnd(s[1..]);
      assert s[..n] == [s[0]] + s[1..][..n - 1];
      n
  }

  /** The non-whitespace characters of s, in order. */
  function Letters(s: string): string
  {
    if |s| == 0 then ""
    else (if IsSpace(s[0]) then "" else [s[0]]) + Letters(s[1..])
  }

  /** The words of ws written one after the other. */
  function Flatten(ws: seq<string>): string
  {
    if |ws| == 0 then "" else ws[0] + Flatten(ws[1..])
  }

  lemma {:induction false} LettersAppend(a: string, b: string)
    ensures Letters(a + b) == Letters(a) + Letters(b)
    decreases |a|
  {
    if |a| == 0 {
      assert a + b == b;
    } else {
      assert (a + b)[1..] == a[1..] + b;
      LettersAppend(a[1..], b);
    }
  }

  lemma {:induction false} LettersOfWord(w: string)
    requires NoSpace(w)
    ensures Letters(w) == w
    decreases |w|
  {
    if |w| > 0 {
      LettersOfWord(w[1..]);
      assert w == [w[0]] + w[1..];
    }
  }

  /** `str.split()` with no separator: the maximal runs of non-whitespace characters. */
  function Split(s: string): (ws: seq<string>)
    ensures AllWords(ws)
    decreases |s|
  {
    if |s| == 0 then []
    else if IsSpace(s[0]) then Split(s[1..])
    else
      var n := WordEnd(s);
      [s[..n]] + Split(s[n..])
  }

  /** Together the words of s hold exactly its non-whitespace characters, in order. */
  lemma {:induction false} SplitLetters(s: string)
    ensures Flatten(Split(s)) == Letters(s)
    decreases |s|
  {
    if |s| > 0 {
      if IsSpace(s[0]) {
        SplitLetters(s[1..]);
      } else {
        var n := WordEnd(s);
        SplitLetters(s[n..]);
        var ws := Split(s);
        assert ws == [s[..n]] + Split(s[n..]);
        assert ws[1..] == Split(s[n..]);
        assert s == s[..n] + s[n..];
        LettersAppend(s[..n], s[n..]);
        LettersOfWord(s[..n]);
      }
    }
  }

  /** `' '.join(ws)`. */
  function Join(ws: seq<string>): string
  {
    if |ws| == 0 then ""
    else if |ws| == 1 then ws[0]
    else ws[0] + " " + Join(ws[1..])
  }

  /** Joining words loses none of their characters and adds only whitespace. */
  lemma {:induction false} JoinLetters(ws: seq<string>)
    requires AllWords(ws)
    ensures Letters(Join(ws)) == Flatten(ws)
  {
    if |ws| == 1 {
      LettersOfWord(ws[0]);
      assert Flatten(ws) == ws[0] + Flatten([]);
      assert ws[0] + "" == ws[0];
    } else if |ws| > 1 {
      var rest := Join(ws[1..]);
      JoinLetters(ws[1..]);
      assert ws[0] + " " + rest == ws[0] + (" " + rest);
      LettersAppend(ws[0], " " + rest);
      LettersOfWord(ws[0]);
      assert (" " + rest)[1..] == rest;
    }
  }

  /** `string.capwords(s)`. */
  function CapWords(s: string): string
  {
    Join(CapitalizeAll(Split(s)))
  }

  /** No leading or trailing whitespace, and every whitespace character is one space between two non-spaces. */
  predicate WellSpaced(t: string)
  {
    && (|t| > 0 ==> !IsSpace(t[0]) && !IsSpace(t[|t| - 1]))
    && (forall k :: 0 <= k < |t| && IsSpace(t[k]) ==> t[k] == ' ')
    && (forall j, k :: 0 <= j < |t| && 0 <= k < |t| && k == j + 1 ==> !IsSpace(t[j]) || !IsSpace(t[k]))
  }

  /** A word followed by whitespace or nothing is split off whole. */
  lemma SplitLeadingWord(w: string, t: string)
    requires IsWord(w)
    requires |t| == 0 || IsSpace(t[0])
    ensures Split(w + t) == [w] + Split(t)
  {
    var s := w + t;
    WordEndOfWord(w, t);
    assert s[..|w|] == w;
    assert s[|w|..] == t;
  }

  lemma {:induction false} WordEndOfWord(w: string, t: string)
    requires NoSpace(w)
    requires |t| == 0 || IsSpace(t[0])
    ensures WordEnd(w + t) == |w|
    decreases |w|
  {
    if |w| > 0 {
      assert (w + t)[1..] == w[1..] + t;
      WordEndOfWord(w[1..], t);
    } else {
      assert w + t == t;
    }
  }

  /** Splitting words joined by single spaces gives the words back. */
  lemma {:induction false} SplitJoin(ws: seq<string>)
    requires AllWords(ws)
    ensures Split(Join(ws)) == ws
  {
    if |ws| == 0 {
    } else if |ws| == 1 {
      SplitLeadingWord(ws[0], "");
      assert ws[0] + "" == ws[0];
    } else {
      var rest := Join(ws[1..]);
      SplitJoin(ws[1..]);
      SplitLeadingWord(ws[0], " " + rest);
      assert ws[0] + " " + rest == ws[0] + (" " + rest);
      assert (" " + rest)[1..] == rest;
      assert ws == [ws[0]] + ws[1..];
    }
  }

  /** A well-spaced string is its own words joined by single spaces. */
  lemma {:induction false} JoinSplit(s: string)
    requires WellSpaced(s)
    ensures Join(Split(s)) == s
    decreases |s|
  {
    if |s| > 0 {
      var n := WordEnd(s);
      if n == |s| {
        assert s[..n] == s;
        assert Split(s[n..]) == [];
        assert Split(s) == [s];
      } else {
        var t := s[n + 1..];
        WellSpacedAfterWord(s, n);
        SplitSkipsSpace(s, n);
        JoinSplit(t);
        assert Split(s) == [s[..n]] + Split(t);
        assert |Split(t)| > 0;
        JoinCons(s[..n], Split(t));
        assert s == s[..n] + " " + t;
      }
    }
  }

  lemma JoinCons(w: string, ws: seq<string>)
    requires |ws| > 0
    ensures Join([w] + ws) == w + " " + Join(ws)
  {
    assert ([w] + ws)[1..] == ws;
  }

  /** After the first word of a well-spaced string comes one space and a well-spaced rest. */
  lemma WellSpacedAfterWord(s: string, n: nat)
    requires WellSpaced(s) && |s| > 0
    requires n == WordEnd(s) && n < |s|
    ensures s[n] == ' ' && n + 1 < |s|
    ensures |s[n + 1..]| > 0 && WellSpaced(s[n + 1..])
  {
    var t := s[n + 1..];
    assert !IsSpace(s[n]) || !IsSpace(s[n + 1]);
    forall k | 0 <= k < |t| && IsSpace(t[k])
      ensures t[k] == ' '
    {
      assert t[k] == s[k + n + 1];
    }
    forall j, k | 0 <= j && k == j + 1 && k < |t|
      ensures !IsSpace(t[j]) || !IsSpace(t[k])
    {
      assert t[j] == s[j + n + 1] && t[k] == s[k + n + 1];
    }
  }

  /** Whitespace in front of the rest of a string is skipped by the split. */
  lemma SplitSkipsSpace(s: string, n: nat)
    requires n < |s| && IsSpace(s[n])
    ensures Split(s[n..]) == Split(s[n + 1..])
  {
    assert s[n..][1..] == s[n + 1..];
  }

  /** Words joined by single spaces are well spaced. */
  lemma {:induction false} JoinWellSpaced(ws: seq<string>)
    requires AllWords(ws)
    ensures WellSpaced(Join(ws))
  {
    if |ws| > 1 {
      var w, rest := ws[0], Join(ws[1..]);
      JoinWellSpaced(ws[1..]);
      JoinNonEmpty(ws[1..]);
      var t := w + " " + rest;
      forall k | 0 <= k < |t| && IsSpace(t[k])
        ensures t[k] == ' '
      {
        if k > |w| {
          assert t[k] == rest[k - |w| - 1];
        }
      }
      forall j, k | 0 <= j && k == j + 1 && k < |t|
        ensures !IsSpace(t[j]) || !IsSpace(t[k])
      {
        if j > |w| {
          assert t[j] == rest[j - |w| - 1] && t[k] == rest[k - |w| - 1];
        } else if j == |w| {
          assert t[k] == rest[0];
        } else if k < |w| {
          assert t[j] == w[j];
        }
      }
    }
  }

  lemma {:induction false} JoinNonEmpty(ws: seq<string>)
    requires AllWords(ws) && |ws| > 0
    ensures |Join(ws)| > 0
    ensures Join(ws)[0] == ws[0][0]
  {
  }

  /** Capitalised words are still words. */
  lemma CapitalizeAllWords(ws: seq<string>)
    requires AllWords(ws)
    ensures AllWords(CapitalizeAll(ws))
  {
    forall i | 0 <= i < |ws|
      ensures IsWord(CapitalizeAll(ws)[i])
    {
      var w := ws[i];
      assert forall k :: 0 <= k < |w| ==> !IsSpace(w[k]);
    }
  }

  /**
    The words of `capwords(s)` are the words of s, each capitalised: same
    count, same order, same letters up to case.
  */
  lemma CapWordsWords(s: string)
    ensures Split(CapWords(s)) == CapitalizeAll(Split(s))
    ensures forall i :: 0 <= i < |Split(s)| ==>
      IsCapitalized(Split(CapWords(s))[i]) && LowerAll(Split(CapWords(s))[i]) == LowerAll(Split(s)[i])
  {
    CapitalizeAllWords(Split(s));
    SplitJoin(CapitalizeAll(Split(s)));
  }

  /** `capwords` leaves no leading, trailing or repeated whitespace, and only plain spaces. */
  lemma CapWordsWellSpaced(s: string)
    ensures WellSpaced(CapWords(s))
  {
    CapitalizeAllWords(Split(s));
    JoinWellSpaced(CapitalizeAll(Split(s)));
  }

  /** Applying `capwords` twice is the same as applying it once. */
  lemma CapWordsIdempotent(s: string)
    ensures CapWords(CapWords(s)) == CapWords(s)
  {
    var ws := CapitalizeAll(Split(s));
    CapWordsWords(s);
    assert CapitalizeAll(ws) == ws by {
      forall i | 0 <= i < |ws|
        ensures CapitalizeAll(ws)[i] == ws[i]
      {
        CapitalizeIdempotent(Split(s)[i]);
      }
    }
  }

  /** Python's `name = capwords(name)` and, when longer than 40, `name = name[0:39]`. */
  function NormalizeName(name: string): (r: string)
    ensures |r| <= 40
    ensures r <= CapWords(name)
    ensures |r| == if |CapWords(name)| <= 40 then |CapWords(name)| else 39
    ensures |r| == 40 ==> r == CapWords(name)
  {
    var n := CapWords(name);
    if |n| > 40 then n[0..39] else n
  }

  /** A single word of 41 characters is shown as its first 39 characters, capitalised. */
  lemma NormalizeNameShrinks(w: string)
    requires IsWord(w) && |w| == 41
    ensures |NormalizeName(w)| == 39
    ensures NormalizeName(w) == Capitalize(w)[..39]
  {
    SplitLeadingWord(w, "");
    assert w + "" == w;
    assert Split("") == [];
  }

  /**
    The evident intent of the length cap: keep at most 40 characters, i.e.
    `name[0:40]`; the result is the longest prefix of `capwords(name)` that fits.
  */
  function NormalizeNameCapped(name: string): (r: string)
    ensures r <= CapWords(name)
    ensures |r| == if |CapWords(name)| <= 40 then |CapWords(name)| else 40
  {
    var n := CapWords(name);
    if |n| > 40 then n[0..40] else n
  }
}

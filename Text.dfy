/** Python's string primitives as utils/formatters.py and the importers use
    them (str.strip(), str.split() with no separator, " ".join, str.lower()),
    and the two helpers of utils/formatters.py built on them: norm_text and
    the empty-input guard of format_date. */
module Text {
  import opened Common

  /** The characters str.isspace() accepts, which is what strip() and
      split() remove. */
  predicate IsSpace(c: char) {
    || c == ' '
    || '\U{9}' <= c <= '\U{D}'
    || '\U{1C}' <= c <= '\U{1F}'
    || c == '\U{85}' || c == '\U{A0}' || c == '\U{1680}'
    || '\U{2000}' <= c <= '\U{200A}'
    || c == '\U{2028}' || c == '\U{2029}' || c == '\U{202F}' || c == '\U{205F}' || c == '\U{3000}'
  }

  // ---------------------------------------------------------------------
  // strip()

  /** Drops the leading whitespace, and only that. */
  function TrimStart(s: string): (r: string)
    ensures r == [] || !IsSpace(r[0])
    ensures |r| <= |s| && r == s[|s| - |r|..]
    ensures forall i :: 0 <= i < |s| - |r| ==> IsSpace(s[i])
  {
    if s != [] && IsSpace(s[0]) then
      var r := TrimStart(s[1..]);
      assert forall i :: 1 <= i < |s| ==> s[i] == s[1..][i - 1];
      r
    else s
  }

  /** Drops the trailing whitespace, and only that. */
  function TrimEnd(s: string): (r: string)
    ensures r == [] || !IsSpace(r[|r| - 1])
    ensures r <= s
    ensures forall i :: |r| <= i < |s| ==> IsSpace(s[i])
  {
    if s != [] && IsSpace(s[|s| - 1]) then TrimEnd(s[..|s| - 1]) else s
  }

  /** str.strip(): a slice of its input with whitespace at neither end,
      cut out of whitespace on both sides. */
  function Strip(s: string): (r: string)
    ensures r == [] || (!IsSpace(r[0]) && !IsSpace(r[|r| - 1]))
    ensures exists i, j :: 0 <= i <= j <= |s| && r == s[i..j] && AllSpace(s[..i]) && AllSpace(s[j..])
  {
    StripSlice(s);
    TrimEnd(TrimStart(s))
  }

  lemma {:induction false} StripSlice(s: string)
    ensures exists i, j :: 0 <= i <= j <= |s| && TrimEnd(TrimStart(s)) == s[i..j] && AllSpace(s[..i]) && AllSpace(s[j..])
  {
    var t := TrimStart(s);
    var r := TrimEnd(t);
    var i := |s| - |t|;
    var j := i + |r|;
    MiddleSlice(s, t, r, IsSpace);
    AllSpacePrefix(s, i);
    AllSpaceSuffix(s, j);
  }

  lemma AllSpacePrefix(s: string, i: int)
    requires 0 <= i <= |s| && forall k :: 0 <= k < i ==> IsSpace(s[k])
    ensures AllSpace(s[..i])
  {
  }

  lemma AllSpaceSuffix(s: string, j: int)
    requires 0 <= j <= |s| && forall k :: j <= k < |s| ==> IsSpace(s[k])
    ensures AllSpace(s[j..])
  {
    forall k | 0 <= k < |s| - j ensures IsSpace(s[j..][k]) {
      assert s[j..][k] == s[j + k];
    }
  }

  /** A prefix r of a suffix t of s is the slice of s between them, and what
      t leaves after r is what s leaves after that slice. */
  lemma MiddleSlice<T>(s: seq<T>, t: seq<T>, r: seq<T>, p: T -> bool)
    requires |t| <= |s| && t == s[|s| - |t|..] && r <= t
    requires forall k :: |r| <= k < |t| ==> p(t[k])
    ensures r == s[|s| - |t|..|s| - |t| + |r|]
    ensures forall k :: |s| - |t| + |r| <= k < |s| ==> p(s[k])
  {
    var i := |s| - |t|;
    forall k | i + |r| <= k < |s| ensures p(s[k]) {
      assert s[k] == t[k - i];
    }
  }

  ghost predicate AllSpace(s: string) {
    forall i :: 0 <= i < |s| ==> IsSpace(s[i])
  }

  lemma {:induction false} TrimStartEmpty(s: string)
    ensures TrimStart(s) == [] <==> AllSpace(s)
    decreases |s|
  {
    if s != [] && IsSpace(s[0]) {
      TrimStartEmpty(s[1..]);
      assert forall i :: 1 <= i < |s| ==> s[i] == s[1..][i - 1];
    }
  }

  lemma {:induction false} TrimEndEmpty(s: string)
    ensures TrimEnd(s) == [] <==> AllSpace(s)
    decreases |s|
  {
    if s != [] && IsSpace(s[|s| - 1]) {
      TrimEndEmpty(s[..|s| - 1]);
    }
  }

  /** strip() leaves nothing exactly when there is nothing but whitespace. */
  lemma StripEmpty(s: string)
    ensures Strip(s) == [] <==> AllSpace(s)
  {
    TrimStartEmpty(s);
    TrimEndEmpty(TrimStart(s));
  }

  // ---------------------------------------------------------------------
  // split()

  /** The length of the run of non-whitespace characters that starts s. */
  function WordLen(s: string): (n: nat)
    ensures n <= |s|
    ensures forall i :: 0 <= i < n ==> !IsSpace(s[i])
    ensures n == |s| || IsSpace(s[n])
  {
    if s == [] || IsSpace(s[0]) then 0 else 1 + WordLen(s[1..])
  }

  /** A run length is determined by where the first whitespace falls. */
  lemma {:induction false} WordLenIs(s: string, n: nat)
    requires n <= |s|
    requires forall i :: 0 <= i < n ==> !IsSpace(s[i])
    requires n == |s| || IsSpace(s[n])
    ensures WordLen(s) == n
    decreases n
  {
    if n > 0 {
      assert !IsSpace(s[0]);
      assert forall i :: 0 <= i < n - 1 ==> s[1..][i] == s[i + 1];
      WordLenIs(s[1..], n - 1);
    }
  }

  /** str.split(): the maximal runs of non-whitespace, in order. */
  function Words(s: string): seq<string>
    decreases |s|
  {
    if s == [] then []
    else if IsSpace(s[0]) then Words(s[1..])
    else
      var n := WordLen(s);
      [s[..n]] + Words(s[n..])
  }

  predicate IsWord(w: string) {
    |w| > 0 && forall i :: 0 <= i < |w| ==> !IsSpace(w[i])
  }

  ghost predicate AllWords(ws: seq<string>) {
    forall i :: 0 <= i < |ws| ==> IsWord(ws[i])
  }

  /** Every piece split() yields is a non-empty run without whitespace. */
  lemma {:induction false} WordsAreWords(s: string)
    ensures AllWords(Words(s))
    decreases |s|
  {
    if s == [] {
    } else if IsSpace(s[0]) {
      WordsAreWords(s[1..]);
    } else {
      var n := WordLen(s);
      WordsAreWords(s[n..]);
    }
  }

  /** A trailing whitespace character does not change the split. */
  lemma {:induction false} WordsSnocSpace(s: string, c: char)
    requires IsSpace(c)
    ensures Words(s + [c]) == Words(s)
    decreases |s|
  {
    var t := s + [c];
    if s == [] {
      assert Words(t) == Words(t[1..]);
      assert t[1..] == [];
    } else if IsSpace(s[0]) {
      assert t[1..] == s[1..] + [c];
      WordsSnocSpace(s[1..], c);
    } else {
      var n := WordLen(s);
      WordLenIs(t, n);
      assert t[..n] == s[..n];
      assert t[n..] == s[n..] + [c];
      WordsSnocSpace(s[n..], c);
    }
  }

  lemma {:induction false} WordsTrimStart(s: string)
    ensures Words(TrimStart(s)) == Words(s)
    decreases |s|
  {
    if s != [] && IsSpace(s[0]) {
      WordsTrimStart(s[1..]);
    }
  }

  lemma {:induction false} WordsTrimEnd(s: string)
    ensures Words(TrimEnd(s)) == Words(s)
    decreases |s|
  {
    if s != [] && IsSpace(s[|s| - 1]) {
      var front := s[..|s| - 1];
      WordsTrimEnd(front);
      assert s == front + [s[|s| - 1]];
      WordsSnocSpace(front, s[|s| - 1]);
    }
  }

  /** strip() before split() changes nothing. */
  lemma WordsStrip(s: string)
    ensures Words(Strip(s)) == Words(s)
  {
    WordsTrimStart(s);
    WordsTrimEnd(TrimStart(s));
  }

  /** A word, followed by whitespace or nothing, splits off whole. */
  lemma WordsOfWordThen(w: string, rest: string)
    requires IsWord(w)
    requires rest == [] || IsSpace(rest[0])
    ensures Words(w + rest) == [w] + Words(rest)
  {
    var s := w + rest;
    WordLenIs(s, |w|);
    assert s[..|w|] == w;
    assert s[|w|..] == rest;
  }

  /** split() undoes " ".join on words: the round trip. */
  lemma {:induction false} WordsOfJoin(ws: seq<string>)
    requires AllWords(ws)
    ensures Words(Join(ws, " ")) == ws
    decreases |ws|
  {
    if ws == [] {
    } else if |ws| == 1 {
      WordsOfWordThen(ws[0], []);
      assert ws[0] + [] == ws[0];
    } else {
      var rest := Join(ws[1..], " ");
      assert AllWords(ws[1..]) by {
        forall i | 0 <= i < |ws| - 1 ensures IsWord(ws[1..][i]) {
          assert ws[1..][i] == ws[i + 1];
        }
      }
      WordsOfJoin(ws[1..]);
      assert IsWord(ws[0]);
      assert ws[0] + " " + rest == ws[0] + (" " + rest);
      WordsOfWordThen(ws[0], " " + rest);
      assert (" " + rest)[1..] == rest;
    }
  }

  // ---------------------------------------------------------------------
  // The shape of a joined string

  /** No whitespace at either end, and every whitespace character is a
      single ' ' between two non-whitespace characters. */
  ghost predicate SingleSpaced(r: string) {
    && (|r| > 0 ==> !IsSpace(r[0]) && !IsSpace(r[|r| - 1]))
    && (forall i :: 0 <= i < |r| && IsSpace(r[i]) ==>
          r[i] == ' ' && 0 < i < |r| - 1 && !IsSpace(r[i + 1]))
  }

  lemma {:induction false} JoinShape(ws: seq<string>)
    requires AllWords(ws)
    ensures SingleSpaced(Join(ws, " "))
    ensures ws != [] ==> Join(ws, " ") != []
    decreases |ws|
  {
    if |ws| > 1 {
      var w := ws[0];
      var rest := Join(ws[1..], " ");
      assert AllWords(ws[1..]) by {
        forall i | 0 <= i < |ws| - 1 ensures IsWord(ws[1..][i]) {
          assert ws[1..][i] == ws[i + 1];
        }
      }
      JoinShape(ws[1..]);
      assert IsWord(w);
      var r := w + " " + rest;
      assert Join(ws, " ") == r;
      forall i | 0 <= i < |r|
        ensures IsSpace(r[i]) ==> r[i] == ' ' && 0 < i < |r| - 1 && !IsSpace(r[i + 1])
      {
        if i < |w| {
          assert r[i] == w[i];
        } else if i == |w| {
          assert r[i + 1] == rest[0];
        } else {
          assert r[i] == rest[i - |w| - 1];
          if i + 1 < |r| { assert r[i + 1] == rest[i - |w|]; }
        }
      }
      assert r[0] == w[0];
      assert r[|r| - 1] == rest[|rest| - 1];
    }
  }

  // ---------------------------------------------------------------------
  // The non-whitespace characters

  function NonSpace(s: string): string {
    Filter(s, (c: char) => !IsSpace(c))
  }

  function Concat(ws: seq<string>): string {
    if ws == [] then [] else ws[0] + Concat(ws[1..])
  }

  lemma {:induction false} NonSpaceOfWord(w: string)
    requires forall i :: 0 <= i < |w| ==> !IsSpace(w[i])
    ensures NonSpace(w) == w
    decreases |w|
  {
    if w != [] {
      NonSpaceOfWord(w[..|w| - 1]);
      assert w == w[..|w| - 1] + [w[|w| - 1]];
    }
  }

  lemma NonSpaceOfSpace(c: char, rest: string)
    requires IsSpace(c)
    ensures NonSpace([c] + rest) == NonSpace(rest)
  {
    FilterAppend([c], rest, (x: char) => !IsSpace(x));
    assert Filter([c], (x: char) => !IsSpace(x)) == Filter([], (x: char) => !IsSpace(x)) + [];
  }

  /** The non-whitespace characters of a string are its words, end to end. */
  lemma {:induction false} NonSpaceIsConcatWords(s: string)
    ensures NonSpace(s) == Concat(Words(s))
    decreases |s|
  {
    if s == [] {
    } else if IsSpace(s[0]) {
      assert s == [s[0]] + s[1..];
      NonSpaceOfSpace(s[0], s[1..]);
      NonSpaceIsConcatWords(s[1..]);
    } else {
      var n := WordLen(s);
      assert s == s[..n] + s[n..];
      FilterAppend(s[..n], s[n..], (c: char) => !IsSpace(c));
      NonSpaceOfWord(s[..n]);
      NonSpaceIsConcatWords(s[n..]);
      assert Words(s) == [s[..n]] + Words(s[n..]);
      assert Concat(Words(s)) == s[..n] + Concat(Words(s[n..]));
    }
  }

  /** " ".join keeps the words' characters, end to end. */
  lemma {:induction false} NonSpaceOfJoin(ws: seq<string>)
    requires AllWords(ws)
    ensures NonSpace(Join(ws, " ")) == Concat(ws)
    decreases |ws|
  {
    if ws == [] {
    } else if |ws| == 1 {
      NonSpaceOfWord(ws[0]);
      assert Concat(ws) == ws[0] + Concat([]);
    } else {
      assert AllWords(ws[1..]) by {
        forall i | 0 <= i < |ws| - 1 ensures IsWord(ws[1..][i]) {
          assert ws[1..][i] == ws[i + 1];
        }
      }
      NonSpaceOfJoin(ws[1..]);
      var rest := Join(ws[1..], " ");
      assert IsWord(ws[0]);
      assert Join(ws, " ") == ws[0] + ([' '] + rest);
      FilterAppend(ws[0], [' '] + rest, (c: char) => !IsSpace(c));
      NonSpaceOfWord(ws[0]);
      NonSpaceOfSpace(' ', rest);
    }
  }

  // ---------------------------------------------------------------------
  // norm_text

  /** norm_text(s): `" ".join((s or "").strip().split())`. */
  function NormText(s: Option<string>): string {
    Join(Words(Strip(OrElse(s, ""))), " ")
  }

  /** None and "" give ""; any result is trimmed and single-spaced, and it
      splits back into the input's words. */
  lemma NormTextShape(s: Option<string>)
    ensures s.None? || s == Some("") ==> NormText(s) == ""
    ensures SingleSpaced(NormText(s))
    ensures Words(NormText(s)) == Words(OrElse(s, ""))
  {
    var ws := Words(Strip(OrElse(s, "")));
    WordsAreWords(Strip(OrElse(s, "")));
    JoinShape(ws);
    WordsOfJoin(ws);
    WordsStrip(OrElse(s, ""));
  }

  /** Normalising twice is normalising once. */
  lemma NormTextIdempotent(s: Option<string>)
    ensures NormText(Some(NormText(s))) == NormText(s)
  {
    var ws := Words(Strip(OrElse(s, "")));
    var r := NormText(s);
    WordsAreWords(Strip(OrElse(s, "")));
    WordsOfJoin(ws);
    WordsStrip(r);
  }

  /** The non-whitespace characters survive, in their order. */
  lemma NormTextKeepsCharacters(s: Option<string>)
    ensures NonSpace(NormText(s)) == NonSpace(OrElse(s, ""))
  {
    var x := OrElse(s, "");
    WordsAreWords(Strip(x));
    NonSpaceOfJoin(Words(Strip(x)));
    WordsStrip(x);
    NonSpaceIsConcatWords(x);
  }

  // ---------------------------------------------------------------------
  // lower()

  /** str.lower() on ASCII letters; other characters are kept. */
  function LowerChar(c: char): char {
    if 'A' <= c <= 'Z' then (c as int + 32) as char else c
  }

  function Lower(s: string): (r: string)
    ensures |r| == |s| && forall i :: 0 <= i < |s| ==> r[i] == LowerChar(s[i])
  {
    seq(|s|, i requires 0 <= i < |s| => LowerChar(s[i]))
  }

  lemma LowerIdempotent(s: string)
    ensures Lower(Lower(s)) == Lower(s)
  {
  }

  lemma LowerKeepsWords(w: string)
    requires IsWord(w)
    ensures IsWord(Lower(w))
  {
  }

  lemma {:induction false} LowerOfJoin(ws: seq<string>)
    ensures Lower(Join(ws, " ")) == Join(Map(ws, (w: string) => Lower(w)), " ")
    decreases |ws|
  {
    if |ws| > 1 {
      LowerOfJoin(ws[1..]);
      assert Map(ws, (w: string) => Lower(w))[1..] == Map(ws[1..], (w: string) => Lower(w));
      var a := ws[0];
      var b := Join(ws[1..], " ");
      assert Lower(a + " " + b) == Lower(a) + " " + Lower(b);
    }
  }

  // ---------------------------------------------------------------------
  // format_date

  /** format_date(dt_str): "-" for a missing, empty or whitespace-only
      value; otherwise whatever the date rendering (strptime/strftime with
      its fallback to the raw text) makes of it. */
  function FormatDate(dt: Option<string>, render: string -> string): string {
    if !Truthy(dt) || Strip(dt.value) == "" then "-" else render(dt.value)
  }

  lemma FormatDateGuard(dt: Option<string>, render: string -> string)
    ensures dt.None? || AllSpace(dt.value) ==> FormatDate(dt, render) == "-"
    ensures dt.Some? && !AllSpace(dt.value) ==> FormatDate(dt, render) == render(dt.value)
  {
    if dt.Some? {
      StripEmpty(dt.value);
    }
  }
}

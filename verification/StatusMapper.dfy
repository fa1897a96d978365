/**
 Normalising carrier statuses: services/carrier-sync-service/internal/mapping/status_mapper.go.
 The loop that collapses underscores is shown to split the text into words and join them with one underscore.
 */
module StatusMapper {
  import opened Numbers
  import opened Text

  predicate IsSeparator(c: char) {
    c == ' ' || c == '-' || c == '_'
  }

  predicate IsUnderscore(c: char) {
    c == '_'
  }

  /** The replacer `"-" -> "_", " " -> "_"`. */
  function Unify(s: string): (r: string)
    ensures |r| == |s| && forall i :: 0 <= i < |s| ==> r[i] == if IsSeparator(s[i]) then '_' else s[i]
  {
    seq(|s|, i requires 0 <= i < |s| => if IsSeparator(s[i]) then '_' else s[i])
  }

  predicate HasDouble(s: string) {
    exists i :: 0 <= i < |s| - 1 && s[i] == '_' && s[i + 1] == '_'
  }

  /** `strings.ReplaceAll(s, "__", "_")`: left to right, without overlaps. */
  function ReplaceDouble(s: string): (r: string)
    ensures |r| <= |s|
  {
    if |s| < 2 then s
    else if s[0] == '_' && s[1] == '_' then "_" + ReplaceDouble(s[2..])
    else [s[0]] + ReplaceDouble(s[1..])
  }

  // The words of a text.

  /** The words before the first separator is passed are joined to `word`, the word being read. */
  function WordsFrom(word: string, s: string, sep: char -> bool): seq<string>
    decreases |s|
  {
    if s == "" then (if word == "" then [] else [word])
    else if sep(s[0]) then (if word == "" then [] else [word]) + WordsFrom("", s[1..], sep)
    else WordsFrom(word + [s[0]], s[1..], sep)
  }

  /** The maximal runs of non-separators. */
  function Words(s: string, sep: char -> bool): seq<string> {
    WordsFrom("", s, sep)
  }

  function Join(words: seq<string>): string {
    if words == [] then ""
    else if |words| == 1 then words[0]
    else words[0] + "_" + Join(words[1..])
  }

  /** What `normalizeStatus` is for. */
  function Normalized(status: string): string {
    Join(Words(Lower(TrimSpace(status)), IsSeparator))
  }

  lemma {:induction false} WordsOfUnified(word: string, s: string)
    ensures WordsFrom(word, Unify(s), IsUnderscore) == WordsFrom(word, s, IsSeparator)
    decreases |s|
  {
    if s != "" {
      assert Unify(s)[1..] == Unify(s[1..]);
      WordsOfUnified(if IsSeparator(s[0]) then "" else word + [s[0]], s[1..]);
    }
  }

  /** One pass changes no word. */
  lemma {:induction false} PassKeepsWords(word: string, s: string)
    ensures WordsFrom(word, ReplaceDouble(s), IsUnderscore) == WordsFrom(word, s, IsUnderscore)
    decreases |s|
  {
    var r := ReplaceDouble(s);
    if |s| >= 2 {
      if s[0] == '_' && s[1] == '_' {
        assert r[1..] == ReplaceDouble(s[2..]) && s[1..][1..] == s[2..];
        PassKeepsWords("", s[2..]);
      } else {
        assert r[1..] == ReplaceDouble(s[1..]);
        PassKeepsWords(if s[0] == '_' then "" else word + [s[0]], s[1..]);
      }
    }
  }

  // The number of passes.

  function Lead(s: string): nat {
    if s != "" && s[0] == '_' then 1 + Lead(s[1..]) else 0
  }

  /** The length of the longest run of underscores. */
  function LongestRun(s: string): nat {
    if s == "" then 0 else Max(Lead(s), LongestRun(s[1..]))
  }

  function Half(n: nat): nat {
    (n + 1) / 2
  }

  lemma {:induction false} PassHalvesRuns(s: string)
    ensures Lead(ReplaceDouble(s)) == Half(Lead(s))
    ensures LongestRun(ReplaceDouble(s)) == Half(LongestRun(s))
    decreases |s|
  {
    var r := ReplaceDouble(s);
    if |s| >= 2 {
      if s[0] == '_' && s[1] == '_' {
        assert r[1..] == ReplaceDouble(s[2..]) && s[1..][1..] == s[2..];
        PassHalvesRuns(s[2..]);
      } else {
        assert r[1..] == ReplaceDouble(s[1..]);
        PassHalvesRuns(s[1..]);
      }
    }
  }

  lemma {:induction false} DoubleMeansRun(s: string)
    ensures HasDouble(s) <==> LongestRun(s) >= 2
  {
    if |s| >= 2 {
      DoubleMeansRun(s[1..]);
      if HasDouble(s[1..]) {
        var i :| 0 <= i < |s[1..]| - 1 && s[1..][i] == '_' && s[1..][i + 1] == '_';
        assert s[i + 1] == '_' && s[i + 1 + 1] == '_';
      }
      if HasDouble(s) {
        var i :| 0 <= i < |s| - 1 && s[i] == '_' && s[i + 1] == '_';
        if i > 0 {
          assert s[1..][i - 1] == '_' && s[1..][i - 1 + 1] == '_';
        }
      }
      if Lead(s) >= 2 {
        assert s[0] == '_' && s[0 + 1] == '_';
      }
    }
  }

  /** How often a run can be halved until it is a single underscore. */
  function CeilLog2(n: nat): nat {
    if n <= 1 then 0 else 1 + CeilLog2(Half(n))
  }

  // What is left after the last pass.

  lemma {:induction false} TrimRightKeepsPrefix(p: string, q: string, drop: char -> bool)
    requires exists i :: 0 <= i < |q| && !drop(q[i])
    ensures TrimRight(p + q, drop) == p + TrimRight(q, drop)
    decreases |q|
  {
    var front := q[..|q| - 1];
    assert (p + q)[..|p + q| - 1] == p + front;
    if drop(q[|q| - 1]) {
      var i :| 0 <= i < |q| && !drop(q[i]);
      assert front[i] == q[i];
      TrimRightKeepsPrefix(p, front, drop);
    }
  }

  predicate WordLike(w: string, sep: char -> bool) {
    w != "" && forall i :: 0 <= i < |w| ==> !sep(w[i])
  }

  /** Reading on from a begun word, a text without double underscores only loses its trailing underscore. */
  lemma {:induction false} JoinFromWord(word: string, s: string)
    requires WordLike(word, IsUnderscore) && LongestRun(s) <= 1
    ensures Join(WordsFrom(word, s, IsUnderscore)) == TrimRight(word + s, IsUnderscore)
    decreases |s|
  {
    if s == "" {
      assert word + s == word;
    } else if s[0] != '_' {
      assert word + [s[0]] + s[1..] == word + s;
      JoinFromWord(word + [s[0]], s[1..]);
    } else if s[1..] == "" {
      assert (word + s)[..|word + s| - 1] == word;
    } else {
      var rest := s[1..];
      assert Lead(s) == 1 + Lead(rest) && rest[0] != '_';
      JoinFromWord([rest[0]], rest[1..]);
      JoinNextWord(word, rest);
      assert WordsFrom(word, s, IsUnderscore) == [word] + WordsFrom("", rest, IsUnderscore);
      assert word + s == word + "_" + rest;
    }
  }

  lemma JoinNextWord(word: string, rest: string)
    requires rest != "" && rest[0] != '_'
    requires Join(WordsFrom([rest[0]], rest[1..], IsUnderscore)) == TrimRight([rest[0]] + rest[1..], IsUnderscore)
    ensures Join([word] + WordsFrom("", rest, IsUnderscore)) == TrimRight(word + "_" + rest, IsUnderscore)
  {
    assert [rest[0]] + rest[1..] == rest && "" + [rest[0]] == [rest[0]];
    assert WordsFrom("", rest, IsUnderscore) == WordsFrom([rest[0]], rest[1..], IsUnderscore);
    WordsNotEmpty([rest[0]], rest[1..], IsUnderscore);
    JoinCons(word, WordsFrom("", rest, IsUnderscore));
    assert !IsUnderscore(rest[0]);
    TrimRightKeepsPrefix(word + "_", rest, IsUnderscore);
    assert word + ("_" + TrimRight(rest, IsUnderscore)) == word + "_" + TrimRight(rest, IsUnderscore);
  }

  lemma {:induction false} WordsNotEmpty(word: string, s: string, sep: char -> bool)
    requires word != ""
    ensures WordsFrom(word, s, sep) != []
    decreases |s|
  {
    if s != "" && !sep(s[0]) {
      WordsNotEmpty(word + [s[0]], s[1..], sep);
    }
  }

  lemma JoinOfCollapsed(s: string)
    requires LongestRun(s) <= 1
    ensures Join(Words(s, IsUnderscore)) == Trim(s, IsUnderscore)
  {
    if s != "" {
      var t := if s[0] == '_' then s[1..] else s;
      assert Words(s, IsUnderscore) == Words(t, IsUnderscore);
      if t != "" {
        assert s[0] == '_' ==> Lead(s) == 1 + Lead(t);
        assert t[0] != '_' && TrimLeft(s, IsUnderscore) == t;
        JoinFromWord([t[0]], t[1..]);
        assert [t[0]] + t[1..] == t;
        assert "" + [t[0]] == [t[0]];
        assert Words(t, IsUnderscore) == WordsFrom([t[0]], t[1..], IsUnderscore);
      }
    }
  }

  /**
   The words of the trimmed, lower-cased text joined by single underscores, after as many passes as halving the
   longest run of separators takes.
   */
  method NormalizeStatus(status: string) returns (normalized: string, ghost passes: nat)
    ensures normalized == Normalized(status)
    ensures passes == CeilLog2(LongestRun(Unify(Lower(TrimSpace(status)))))
  {
    normalized := Unify(Lower(TrimSpace(status)));
    passes := 0;
    ghost var unified := normalized;
    WordsOfUnified("", Lower(TrimSpace(status)));
    DoubleMeansRun(normalized);
    while HasDouble(normalized)
      invariant Words(normalized, IsUnderscore) == Words(unified, IsUnderscore)
      invariant passes + CeilLog2(LongestRun(normalized)) == CeilLog2(LongestRun(unified))
      invariant HasDouble(normalized) <==> LongestRun(normalized) >= 2
      decreases LongestRun(normalized)
    {
      PassKeepsWords("", normalized);
      PassHalvesRuns(normalized);
      normalized := ReplaceDouble(normalized);
      DoubleMeansRun(normalized);
      passes := passes + 1;
    }
    JoinOfCollapsed(normalized);
    normalized := Trim(normalized, IsUnderscore);
  }

  // Normalising twice.

  lemma {:induction false} WordsAreWordLike(word: string, s: string, sep: char -> bool)
    requires word == "" || WordLike(word, sep)
    ensures forall w :: w in WordsFrom(word, s, sep) ==> WordLike(w, sep)
    decreases |s|
  {
    if s != "" {
      WordsAreWordLike(if sep(s[0]) then "" else word + [s[0]], s[1..], sep);
    }
  }

  lemma {:induction false} ReadWord(word: string, w: string, tail: string, sep: char -> bool)
    requires forall i :: 0 <= i < |w| ==> !sep(w[i])
    ensures WordsFrom(word, w + tail, sep) == WordsFrom(word + w, tail, sep)
    decreases |w|
  {
    if w == "" {
      assert w + tail == tail && word + w == word;
    } else {
      assert (w + tail)[1..] == w[1..] + tail && word + [w[0]] + w[1..] == word + w;
      ReadWord(word + [w[0]], w[1..], tail, sep);
    }
  }

  /** Splitting undoes joining. */
  lemma {:induction false} WordsOfJoin(ws: seq<string>)
    requires forall w :: w in ws ==> WordLike(w, IsSeparator)
    ensures Words(Join(ws), IsSeparator) == ws
  {
    if ws != [] {
      assert ws[0] in ws && WordLike(ws[0], IsSeparator);
    }
    if |ws| == 1 {
      ReadWord("", ws[0], "", IsSeparator);
      assert ws[0] + "" == ws[0] && "" + ws[0] == ws[0];
    } else if ws != [] {
      var tail := "_" + Join(ws[1..]);
      WordsOfJoin(ws[1..]);
      ReadWord("", ws[0], tail, IsSeparator);
      assert Join(ws) == ws[0] + tail && "" + ws[0] == ws[0] && tail[1..] == Join(ws[1..]);
      assert IsSeparator(tail[0]);
      assert ws == [ws[0]] + ws[1..];
    }
  }

  lemma JoinCons(w: string, rest: seq<string>)
    ensures Join([w] + rest) == w + if rest == [] then "" else "_" + Join(rest)
  {
    assert ([w] + rest)[1..] == rest;
  }

  lemma {:induction false} JoinIsShort(word: string, s: string, sep: char -> bool)
    ensures |Join(WordsFrom(word, s, sep))| <= |word| + |s|
    decreases |s|
  {
    if s != "" {
      JoinIsShort(if sep(s[0]) then "" else word + [s[0]], s[1..], sep);
      if sep(s[0]) && word != "" {
        JoinCons(word, WordsFrom("", s[1..], sep));
      } else if sep(s[0]) {
        assert WordsFrom(word, s, sep) == WordsFrom("", s[1..], sep);
      }
    }
  }

  lemma {:induction false} TrailingSeparator(word: string, s: string, c: char, sep: char -> bool)
    requires sep(c)
    ensures WordsFrom(word, s + [c], sep) == WordsFrom(word, s, sep)
    decreases |s|
  {
    if s == "" {
      assert s + [c] == [c];
    } else {
      assert (s + [c])[1..] == s[1..] + [c];
      TrailingSeparator(if sep(s[0]) then "" else word + [s[0]], s[1..], c, sep);
    }
  }

  /** Separators at the ends are in no word. */
  lemma {:induction false} WordsIgnoreEdges(l: string, t: string, r: string, sep: char -> bool)
    requires forall i :: 0 <= i < |l| ==> sep(l[i])
    requires forall i :: 0 <= i < |r| ==> sep(r[i])
    ensures Words(l + t + r, sep) == Words(t, sep)
    decreases |l| + |r|
  {
    if l != "" {
      assert (l + t + r)[1..] == l[1..] + t + r;
      WordsIgnoreEdges(l[1..], t, r, sep);
    } else if r != "" {
      var front, c := r[..|r| - 1], r[|r| - 1];
      assert l + t + r == (l + t + front) + [c];
      TrailingSeparator("", l + t + front, c, sep);
      WordsIgnoreEdges(l, t, front, sep);
    } else {
      assert l + t + r == t;
    }
  }

  lemma {:induction false} FirstLetter(word: string, s: string, sep: char -> bool)
    requires word != ""
    ensures WordsFrom(word, s, sep) != [] && WordsFrom(word, s, sep)[0] != ""
    ensures WordsFrom(word, s, sep)[0][0] == word[0]
    decreases |s|
  {
    if s != "" && !sep(s[0]) {
      FirstLetter(word + [s[0]], s[1..], sep);
    }
  }

  lemma {:induction false} LastLetter(word: string, s: string, c: char, sep: char -> bool)
    requires !sep(c)
    ensures
      var ws := WordsFrom(word, s + [c], sep);
      ws != [] && ws[|ws| - 1] != "" && ws[|ws| - 1][|ws[|ws| - 1]| - 1] == c
    decreases |s|
  {
    if s == "" {
      assert s + [c] == [c];
    } else {
      assert (s + [c])[1..] == s[1..] + [c];
      LastLetter(if sep(s[0]) then "" else word + [s[0]], s[1..], c, sep);
    }
  }

  lemma {:induction false} JoinEnds(ws: seq<string>)
    requires ws != [] && ws[0] != "" && ws[|ws| - 1] != ""
    ensures
      var j, last := Join(ws), ws[|ws| - 1];
      j != "" && j[0] == ws[0][0] && j[|j| - 1] == last[|last| - 1]
  {
    if |ws| > 1 {
      if |ws| == 2 {
        assert ws[1..] == [ws[1]];
      } else {
        JoinTail(ws[1..]);
      }
    }
  }

  lemma {:induction false} JoinTail(ws: seq<string>)
    requires ws != [] && ws[|ws| - 1] != ""
    ensures
      var j, last := Join(ws), ws[|ws| - 1];
      j != "" && j[|j| - 1] == last[|last| - 1]
  {
    if |ws| > 1 {
      JoinTail(ws[1..]);
    }
  }

  /** The text that the words fill: trimmed, in lower case, without separators at its ends. */
  function Core(status: string): string {
    Trim(Lower(TrimSpace(status)), IsSeparator)
  }

  /** The normalised text begins and ends with the first and last character that is not a separator. */
  lemma NormalizedEnds(status: string)
    ensures Words(Core(status), IsSeparator) == Words(Lower(TrimSpace(status)), IsSeparator)
    ensures Core(status) == "" ==> Normalized(status) == ""
    ensures Core(status) != "" ==>
      var n, t := Normalized(status), Core(status);
      n != "" && n[0] == t[0] && n[|n| - 1] == t[|t| - 1]
  {
    var u, t := Lower(TrimSpace(status)), Core(status);
    var lo, hi := TrimShape(u, IsSeparator);
    assert u == u[..lo] + t + u[hi..];
    WordsIgnoreEdges(u[..lo], t, u[hi..], IsSeparator);
    if t != "" { JoinedEnds(t); }
  }

  lemma JoinedEnds(t: string)
    requires t != "" && Bare(t, IsSeparator)
    ensures
      var n := Join(Words(t, IsSeparator));
      n != "" && n[0] == t[0] && n[|n| - 1] == t[|t| - 1]
  {
    FirstLetter([t[0]], t[1..], IsSeparator);
    assert "" + [t[0]] == [t[0]];
    assert t[..|t| - 1] + [t[|t| - 1]] == t;
    LastLetter("", t[..|t| - 1], t[|t| - 1], IsSeparator);
    JoinEnds(Words(t, IsSeparator));
  }

  predicate IsLower(s: string) {
    forall i :: 0 <= i < |s| ==> LowerChar(s[i]) == s[i]
  }

  lemma {:induction false} WordsStayLower(word: string, s: string)
    requires IsLower(word) && IsLower(s)
    ensures IsLower(Join(WordsFrom(word, s, IsSeparator)))
    decreases |s|
  {
    if s != "" {
      var rest := WordsFrom(if IsSeparator(s[0]) then "" else word + [s[0]], s[1..], IsSeparator);
      WordsStayLower(if IsSeparator(s[0]) then "" else word + [s[0]], s[1..]);
      if IsSeparator(s[0]) && word != "" {
        JoinCons(word, rest);
      } else {
        assert WordsFrom(word, s, IsSeparator) == rest;
      }
    }
  }

  lemma NormalizedIsLower(status: string)
    ensures Lower(Normalized(status)) == Normalized(status)
  {
    WordsStayLower("", Lower(TrimSpace(status)));
    assert IsLower(Normalized(status));
  }

  /** Normalising is idempotent exactly on statuses whose core neither begins nor ends with other whitespace. */
  lemma IdempotentIff(status: string)
    ensures Normalized(Normalized(status)) == Normalized(status) <==> Bare(Core(status), IsSpace)
  {
    var n := Normalized(status);
    NormalizedEnds(status);
    if Bare(Core(status), IsSpace) {
      TrimBare(n, IsSpace);
      NormalizedIsLower(status);
      WordsAreWordLike("", Lower(TrimSpace(status)), IsSeparator);
      WordsOfJoin(Words(Lower(TrimSpace(status)), IsSeparator));
    } else {
      var lo, hi := TrimShape(n, IsSpace);
      JoinIsShort("", Lower(TrimSpace(n)), IsSeparator);
    }
  }

  /** A tab that a trailing underscore protects from trimming is left bare, and the second pass takes it away. */
  lemma TabIsLostOnTheSecondPass()
    ensures Normalized("a\t_") == "a\t" && Normalized("a\t") == "a"
  {
    TabStays();
    TabGoes();
  }

  lemma TabStays()
    ensures Normalized("a\t_") == "a\t"
  {
    TrimBare("a\t_", IsSpace);
    assert Lower("a\t_") == "a\t_";
    assert "a\t_"[1..] == "\t_" && "\t_"[1..] == "_" && "" + ['a'] == "a" && "a" + ['\t'] == "a\t";
    assert WordsFrom("a\t", "_", IsSeparator) == ["a\t"] + WordsFrom("", "", IsSeparator);
  }

  lemma TabGoes()
    ensures Normalized("a\t") == "a"
  {
    assert "a\t"[..1] == "a";
    assert TrimLeft("a\t", IsSpace) == "a\t" && TrimRight("a\t", IsSpace) == "a";
    assert Lower("a") == "a";
    assert "a"[1..] == "" && "" + ['a'] == "a";
  }

  lemma CoreOfPlainText(status: string, lo: nat, hi: nat)
    requires lo <= hi <= |status| && TrimSpace(status) == status[lo..hi]
    requires forall i :: 0 <= i < |status| && IsSpace(status[i]) ==> status[i] == ' '
    ensures Bare(Core(status), IsSpace)
  {
    var u, t := Lower(TrimSpace(status)), Core(status);
    var a, b := TrimShape(u, IsSeparator);
    forall i | 0 <= i < |t| ensures IsSpace(t[i]) ==> IsSeparator(t[i]) {
      assert t[i] == u[a + i] && u[a + i] == LowerChar(status[lo + a + i]);
    }
  }

  /** With the space as its only whitespace, a status is split as it stands, and normalising is idempotent. */
  lemma NormalizedOfPlainText(status: string)
    requires forall i :: 0 <= i < |status| && IsSpace(status[i]) ==> status[i] == ' '
    ensures Normalized(status) == Join(Words(Lower(status), IsSeparator))
    ensures Normalized(Normalized(status)) == Normalized(status)
  {
    var lo, hi := TrimShape(status, IsSpace);
    var low := Lower(status);
    assert Lower(TrimSpace(status)) == low[lo..hi];
    assert low == low[..lo] + low[lo..hi] + low[hi..];
    WordsIgnoreEdges(low[..lo], low[lo..hi], low[hi..], IsSeparator);
    CoreOfPlainText(status, lo, hi);
    IdempotentIff(status);
  }

  // The result, character by character.

  /** A text without its spaces, hyphens and underscores. */
  function Letters(s: string): string {
    if s == "" then ""
    else if s[0] == ' ' || s[0] == '-' || s[0] == '_' then Letters(s[1..])
    else [s[0]] + Letters(s[1..])
  }

  function Concat(ws: seq<string>): string {
    if ws == [] then "" else ws[0] + Concat(ws[1..])
  }

  lemma ConcatCons(w: string, ws: seq<string>)
    ensures Concat([w] + ws) == w + Concat(ws)
  {
    assert ([w] + ws)[1..] == ws;
  }

  /** Splitting loses nothing but the separators. */
  lemma {:induction false} WordsKeepLetters(word: string, s: string)
    ensures Concat(WordsFrom(word, s, IsSeparator)) == word + Letters(s)
    decreases |s|
  {
    if s == "" {
      if word != "" { ConcatCons(word, []); assert [word] + [] == [word]; }
    } else if IsSeparator(s[0]) {
      WordsKeepLetters("", s[1..]);
      assert "" + Letters(s[1..]) == Letters(s[1..]);
      if word == "" {
        assert [] + WordsFrom("", s[1..], IsSeparator) == WordsFrom("", s[1..], IsSeparator);
      } else {
        ConcatCons(word, WordsFrom("", s[1..], IsSeparator));
      }
    } else {
      WordsKeepLetters(word + [s[0]], s[1..]);
      assert word + [s[0]] + Letters(s[1..]) == word + ([s[0]] + Letters(s[1..]));
    }
  }

  lemma {:induction false} LettersOfConcat(a: string, b: string)
    ensures Letters(a + b) == Letters(a) + Letters(b)
  {
    if a == "" {
      assert a + b == b;
    } else {
      assert (a + b)[1..] == a[1..] + b;
      LettersOfConcat(a[1..], b);
    }
  }

  lemma {:induction false} LettersOfWord(w: string)
    requires forall i :: 0 <= i < |w| ==> w[i] != ' ' && w[i] != '-' && w[i] != '_'
    ensures Letters(w) == w
  {
    if w != "" {
      LettersOfWord(w[1..]);
      assert w == [w[0]] + w[1..];
    }
  }

  /** Underscores only between other characters, one at a time, and neither spaces nor hyphens. */
  predicate IsClean(n: string) {
    && (forall i :: 0 <= i < |n| ==> n[i] != ' ' && n[i] != '-')
    && (forall i :: 0 <= i < |n| && n[i] == '_' ==> 0 < i < |n| - 1 && n[i + 1] != '_')
  }

  lemma {:induction false} JoinIsClean(ws: seq<string>)
    requires forall w :: w in ws ==> WordLike(w, IsSeparator)
    ensures IsClean(Join(ws)) && Letters(Join(ws)) == Concat(ws)
    ensures ws != [] ==> Join(ws) != "" && Join(ws)[0] != '_'
  {
    if ws != [] {
      var w := ws[0];
      assert w in ws && WordLike(w, IsSeparator);
      LettersOfWord(w);
      if |ws| == 1 {
        assert w + Concat(ws[1..]) == w;
      } else {
        var rest := Join(ws[1..]);
        JoinIsClean(ws[1..]);
        CleanJoin(w, rest);
      }
    }
  }

  lemma CleanJoin(w: string, rest: string)
    requires WordLike(w, IsSeparator) && IsClean(rest) && rest != "" && rest[0] != '_' && Letters(w) == w
    ensures IsClean(w + "_" + rest) && Letters(w + "_" + rest) == w + Letters(rest)
  {
    var n := w + "_" + rest;
    assert n == w + ("_" + rest);
    LettersOfConcat(w, "_" + rest);
    assert ("_" + rest)[1..] == rest;
    forall i | 0 <= i < |n| ensures n[i] != ' ' && n[i] != '-' {
      if i > |w| { assert n[i] == rest[i - |w| - 1]; }
    }
    forall i | 0 <= i < |n| && n[i] == '_' ensures 0 < i < |n| - 1 && n[i + 1] != '_' {
      if i > |w| {
        assert n[i] == rest[i - |w| - 1];
        assert n[i + 1] == rest[i - |w|];
      } else {
        assert i == |w| && n[i + 1] == rest[0];
      }
    }
  }

  /**
   The normalised status has the characters of the trimmed lower-case text in their order, without spaces and hyphens,
   and underscores only one at a time between others.
   */
  lemma NormalizedIsClean(status: string)
    ensures IsClean(Normalized(status)) && Letters(Normalized(status)) == Letters(Lower(TrimSpace(status)))
    ensures Lower(Normalized(status)) == Normalized(status)
  {
    var s := Lower(TrimSpace(status));
    WordsAreWordLike("", s, IsSeparator);
    JoinIsClean(Words(s, IsSeparator));
    WordsKeepLetters("", s);
    assert "" + Letters(s) == Letters(s);
    NormalizedIsLower(status);
  }

  // The number of passes.

  predicate RunAt(s: string, i: nat, k: nat) {
    i + k <= |s| && forall j :: i <= j < i + k ==> s[j] == '_'
  }

  lemma {:induction false} LeadIs(s: string, k: nat)
    ensures k <= Lead(s) <==> RunAt(s, 0, k)
  {
    if k > 0 && s != "" && s[0] == '_' {
      LeadIs(s[1..], k - 1);
      if RunAt(s[1..], 0, k - 1) {
        forall j | 0 <= j < k ensures s[j] == '_' {
          if j > 0 { assert s[j] == s[1..][j - 1]; }
        }
      }
      if RunAt(s, 0, k) {
        forall j | 0 <= j < k - 1 ensures s[1..][j] == '_' {
          assert s[1..][j] == s[j + 1];
        }
      }
    }
  }

  /** There are `k` underscores in a row somewhere exactly if the longest run is no shorter. */
  lemma {:induction false} LongestRunIs(s: string, k: nat)
    ensures k <= LongestRun(s) <==> exists i: nat :: RunAt(s, i, k)
  {
    LeadIs(s, k);
    if s == "" {
      assert k == 0 ==> RunAt(s, 0, 0);
    } else {
      LongestRunIs(s[1..], k);
      if i: nat :| RunAt(s[1..], i, k) {
        assert RunAt(s, i + 1, k) by {
          forall j | i + 1 <= j < i + 1 + k ensures s[j] == '_' {
            assert s[j] == s[1..][j - 1];
          }
        }
      }
      if i: nat :| RunAt(s, i, k) {
        if i > 0 {
          assert RunAt(s[1..], i - 1, k) by {
            forall j | i - 1 <= j < i - 1 + k ensures s[1..][j] == '_' {
              assert s[1..][j] == s[j + 1];
            }
          }
        }
      }
    }
  }

  function Pow2(n: nat): (p: nat)
    ensures p >= 1
  {
    if n == 0 then 1 else 2 * Pow2(n - 1)
  }

  /** The passes are the binary logarithm, rounded up. */
  lemma {:induction false} CeilLog2Is(n: nat)
    ensures n <= Pow2(CeilLog2(n))
    ensures n >= 2 ==> CeilLog2(n) > 0 && Pow2(CeilLog2(n) - 1) < n
  {
    if n >= 2 {
      CeilLog2Is(Half(n));
    }
  }
}
